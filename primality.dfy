/** Trial-division primality test of main/main.cpp (is_prime), over unbounded
    integers, proved equal to mathematical primality. */
module Primality {

  /** d divides n. */
  predicate Divides(d: nat, n: nat) {
    d > 0 && n % d == 0
  }

  /** n is prime: at least 2 and without a divisor strictly between 1 and n. */
  predicate Prime(n: nat) {
    n >= 2 && forall d :: 2 <= d < n ==> !Divides(d, n)
  }

  lemma PrimeMeans(n: nat)
    ensures Prime(n) <==> n >= 2 && forall d :: 2 <= d < n ==> n % d != 0
  {
    if Prime(n) {
      forall d | 2 <= d < n
        ensures n % d != 0
      {
        assert !Divides(d, n);
      }
    }
    if n >= 2 && forall d :: 2 <= d < n ==> n % d != 0 {
      forall d | 2 <= d < n
        ensures !Divides(d, n)
      {
        assert n % d != 0;
      }
    }
  }

  /** What the loop of is_prime checks: no i with 2 <= i and i * i <= n divides n. */
  ghost predicate NoDivisorUpToRoot(n: nat) {
    forall i :: 2 <= i && i * i <= n ==> n % i != 0
  }

  lemma MulMonotone(a: nat, b: nat, c: nat, d: nat)
    requires a <= c && b <= d
    ensures a * b <= c * d
  {
    calc {
      a * b;
    <= { MulLeft(a, b, d); }
      a * d;
    <= { MulLeft(d, a, c); }
      c * d;
    }
  }

  lemma MulLeft(k: nat, x: nat, y: nat)
    requires x <= y
    ensures k * x <= k * y
  {
    assert k * y == k * x + k * (y - x);
  }

  /** A divisor d of n with 2 <= d < n has a cofactor n / d that is itself a
      divisor of n, at least 2, and below i whenever d >= i and i * i > n. */
  lemma Cofactor(n: nat, i: nat, d: nat) returns (q: nat)
    requires 2 <= i <= d < n && i * i > n && n % d == 0
    ensures 2 <= q < i && n % q == 0
  {
    q := n / d;
    assert n == d * q + n % d;
    assert n == d * q;
    if q < 2 {
      assert false;
    } else if q >= i {
      MulMonotone(i, i, d, q);
      assert false;
    }
    MultipleMod(n, q, d);
  }

  lemma MultipleMod(n: nat, q: nat, d: nat)
    requires q > 0 && n == q * d
    ensures n % q == 0
  {
    var k: int := d - n / q;
    assert n == q * (n / q) + n % q;
    assert q * k == n % q;
    if k >= 1 {
      MulLeft(q, 1, k);
    } else if k < 0 {
      assert q * k == -(q * -k);
    }
  }

  /** If n has no divisor below i and i * i > n, then n has no proper divisor at
      all: a divisor d >= i would come with the cofactor n / d < i. */
  lemma NoDivisorBelowRoot(n: nat, i: nat)
    requires 2 <= i
    requires i * i > n
    requires forall d :: 2 <= d < i ==> n % d != 0
    ensures forall d :: 2 <= d < n ==> n % d != 0
  {
    forall d | i <= d < n
      ensures n % d != 0
    {
      if n % d == 0 {
        var q := Cofactor(n, i, d);
      }
    }
  }

  /** The loop bound of is_prime is sufficient: for n >= 2, trial division up
      to the square root agrees with primality, in both directions. */
  lemma TrialDivisionIsPrimality(n: nat)
    requires n >= 2
    ensures NoDivisorUpToRoot(n) <==> Prime(n)
  {
    PrimeMeans(n);
    if NoDivisorUpToRoot(n) {
      var r := 2;
      while r * r <= n
        invariant 2 <= r
        invariant forall d :: 2 <= d < r ==> n % d != 0
        decreases n - r
      {
        MulLeft(r, 2, r);
        r := r + 1;
      }
      NoDivisorBelowRoot(n, r);
    }
    if Prime(n) {
      forall i | 2 <= i && i * i <= n
        ensures n % i != 0
      {
        MulLeft(i, 2, i);
        assert i < n;
      }
    }
  }

  /** is_prime (main/main.cpp:89-95): false for n <= 1, otherwise trial
      division by every i with i * i <= n, returning false at the first divisor. */
  method IsPrime(n: nat) returns (p: bool)
    ensures p == Prime(n)
  {
    if n <= 1 {
      return false;
    }
    var i := 2;
    while i * i <= n
      invariant 2 <= i
      invariant forall d :: 2 <= d < i ==> n % d != 0
      decreases n - i
    {
      MulLeft(i, 2, i);
      if n % i == 0 {
        PrimeMeans(n);
        return false;
      }
      i := i + 1;
    }
    NoDivisorBelowRoot(n, i);
    PrimeMeans(n);
    return true;
  }

  /** Examples: 0, 1 and 18 are not prime; 2 and 17 are. */
  lemma PrimeExamples()
    ensures !Prime(0) && !Prime(1) && !Prime(18)
    ensures Prime(2) && Prime(17)
  {
    PrimeMeans(18);
    assert 18 % 2 == 0;
    PrimeMeans(17);
    NoDivisorBelowRoot(17, 5);
  }
}
