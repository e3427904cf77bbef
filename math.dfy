/** Exact arithmetic shared by the three series: factorials, powers and the
    integer divisions the C code performs. MPFR values are modelled as exact
    reals, C `int`s as mathematical integers. */
module Math {

  /** n! as computed by `mpz_fac_ui` (and tabulated by `getFactorials`). */
  function Fact(n: nat): (r: nat)
    ensures r >= 1
  {
    if n == 0 then 1 else n * Fact(n - 1)
  }

  /** The real quotient x / y (`mpfr_div` on exact values). It is a named
      function so that quotients of equal operands are equal by congruence. */
  function Quot(x: real, y: real): real
    requires y != 0.0
  {
    x / y
  }

  /** k x, as `mpfr_mul_ui` or `mpfr_mul_z` computes it: a named function
      for the same reason as Quot. */
  function Scale(k: int, x: real): real
  {
    (k as real) * x
  }

  /** The real product p q (`mpfr_mul` on exact values), named for the same
      reason as Quot. */
  function Times(p: real, q: real): real
  {
    p * q
  }

  /** x^n, as computed by `mpfr_pow_ui`. */
  function Pow(x: real, n: nat): (r: real)
    ensures x != 0.0 ==> r != 0.0
  {
    if n == 0 then 1.0 else Times(x, Pow(x, n - 1))
  }

  /** x^n on integers, as `mpz_pow_ui` computes it. */
  function IPow(x: int, n: nat): (r: int)
    ensures x != 0 ==> r != 0
  {
    if n == 0 then 1 else x * IPow(x, n - 1)
  }

  /** n^3, the `_pow_ui(_, _, 3)` calls with a literal exponent on an
      integer operand. */
  function Cube(n: int): int
  {
    n * n * n
  }

  /** (m + 1) (m + 2) ... (m + k), so that (m + k)! = m! Rising(m, k). */
  function Rising(m: nat, k: nat): (r: nat)
    ensures r >= 1
  {
    if k == 0 then 1 else Rising(m, k - 1) * (m + k)
  }

  /** The value of a C `(n + d - 1) / d` on non-negative operands: the least
      multiple count that reaches n. */
  function CeilDiv(n: nat, d: nat): (r: nat)
    requires d > 0
    ensures r * d >= n
    ensures r > 0 ==> (r - 1) * d < n
  {
    (n + d - 1) / d
  }

  /** C's `/` on `int`, which truncates toward zero (Dafny's rounds down). */
  function CDiv(a: int, d: int): (r: int)
    requires d > 0
    ensures a >= 0 ==> 0 <= a - r * d < d
    ensures a < 0 ==> -d < a - r * d <= 0
  {
    if a >= 0 then a / d else -((-a) / d)
  }

  /** The remainder conditions of C's division fix the quotient: any q whose
      remainder a - q d has the sign of a and is smaller than d is CDiv. */
  lemma {:induction false} CDivUnique(a: int, d: int, q: int)
    requires d > 0
    requires a >= 0 ==> 0 <= a - q * d < d
    requires a < 0 ==> -d < a - q * d <= 0
    ensures q == CDiv(a, d)
  {
    var r := CDiv(a, d);
    if q < r {
      MulMonotoneStep(q, r, d);
    } else if q > r {
      MulMonotoneStep(r, q, d);
    }
  }

  /** Quotients one apart or more have products d apart or more. */
  lemma {:induction false} MulMonotoneStep(x: int, y: int, d: int)
    requires x < y && d > 0
    ensures x * d + d <= y * d
  {
    var k := y - x - 1;
    assert y * d == x * d + d + k * d;
  }

  function Min(a: int, b: int): int
  {
    if a <= b then a else b
  }

  function Max(a: int, b: int): int
  {
    if a >= b then a else b
  }

  lemma {:induction false} PowAdd(x: real, a: nat, b: nat)
    ensures Pow(x, a + b) == Times(Pow(x, a), Pow(x, b))
  {
    if b > 0 {
      PowAdd(x, a, b - 1);
      assert Pow(x, a + b) == Times(x, Pow(x, a + (b - 1)));
      TimesSwap(x, Pow(x, a), Pow(x, b - 1));
    }
  }

  lemma {:induction false} TimesSwap(x: real, p: real, q: real)
    ensures Times(x, Times(p, q)) == Times(p, Times(x, q))
  {
  }

  lemma {:induction false} PowReciprocal(x: real, n: nat)
    requires x != 0.0
    ensures Pow(Quot(1.0, x), n) == Quot(1.0, Pow(x, n))
  {
    if n > 0 {
      PowReciprocal(x, n - 1);
      var p := Pow(x, n - 1);
      calc {
        Pow(Quot(1.0, x), n);
        Times(Quot(1.0, x), Pow(Quot(1.0, x), n - 1));
        Times(Quot(1.0, x), Quot(1.0, p));
        { ReciprocalProduct(x, p); }
        Quot(1.0, Times(x, p));
        Quot(1.0, Pow(x, n));
      }
    }
  }

  lemma {:induction false} ReciprocalProduct(x: real, p: real)
    requires x != 0.0 && p != 0.0
    ensures Times(Quot(1.0, x), Quot(1.0, p)) == Quot(1.0, Times(x, p))
  {
  }

  lemma {:induction false} IPowCube(x: int)
    ensures IPow(x, 3) == Cube(x)
  {
    assert IPow(x, 1) == x;
    assert IPow(x, 2) == x * x;
  }

  /** x^(3n) = (x^3)^n. */
  lemma {:induction false} IPowThree(x: int, n: nat)
    ensures IPow(x, 3 * n) == IPow(Cube(x), n)
  {
    if n > 0 {
      IPowThree(x, n - 1);
      var k := 3 * (n - 1);
      assert IPow(x, k + 1) == x * IPow(x, k);
      assert IPow(x, k + 2) == x * IPow(x, k + 1);
      assert IPow(x, k + 3) == x * IPow(x, k + 2);
      assert 3 * n == k + 3;
      MulRotate3(x, IPow(x, k));
    }
  }

  lemma {:induction false} MulRotate3(x: int, p: int)
    ensures x * (x * (x * p)) == Cube(x) * p
  {
  }

  /** A real power of an integer is the integer power. */
  lemma {:induction false} PowOfInt(x: int, n: nat)
    ensures Pow(x as real, n) == IPow(x, n) as real
  {
    if n > 0 {
      PowOfInt(x, n - 1);
      RealOfProduct(x, IPow(x, n - 1));
    }
  }

  lemma {:induction false} FactRising(m: nat, k: nat)
    ensures Fact(m + k) == Fact(m) * Rising(m, k)
  {
    if k > 0 {
      FactRising(m, k - 1);
      var a, b, c := Fact(m), Rising(m, k - 1), m + k;
      assert Fact(m + k) == c * Fact(m + k - 1);
      assert Rising(m, k) == b * c;
      MulRotate(a, b, c);
    }
  }

  lemma {:induction false} MulRotate(a: int, b: int, c: int)
    ensures c * (a * b) == a * (b * c)
  {
  }

  lemma {:induction false} CubeProduct(x: int, y: int)
    ensures Cube(x * y) == Cube(x) * Cube(y)
  {
  }

  lemma {:induction false} RealOfProduct(a: int, b: int)
    ensures (a * b) as real == (a as real) * (b as real)
  {
  }

  lemma {:induction false} DivByProduct(u: real, v: real, w: real)
    requires v != 0.0 && u == w * v
    ensures u / v == w
  {
  }

  /** A common non-zero factor cancels from a quotient. */
  lemma {:induction false} Cancel(a: real, b: real, d: real)
    requires b != 0.0 && d != 0.0
    ensures (a * d) / (b * d) == a / b
  {
    var r := a / b;
    assert a == r * b;
    assert a * d == r * (b * d);
    DivByProduct(a * d, b * d, r);
  }
}
