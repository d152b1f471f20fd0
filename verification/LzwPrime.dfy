/** The table size of compress.c is prime, so the secondary probe of G. Knott
    visits every slot before it comes back to one. */
module LzwPrime {

  const HSIZE: nat := 69001

  predicate NotDivisor(e: nat) {
    e > 0 && HSIZE % e != 0
  }

  /** None of the sixteen numbers from `d` down divides the table size. */
  predicate SixteenClear(d: nat)
    requires d >= 17
  {
    && NotDivisor(d) && NotDivisor(d - 1) && NotDivisor(d - 2) && NotDivisor(d - 3)
    && NotDivisor(d - 4) && NotDivisor(d - 5) && NotDivisor(d - 6) && NotDivisor(d - 7)
    && NotDivisor(d - 8) && NotDivisor(d - 9) && NotDivisor(d - 10) && NotDivisor(d - 11)
    && NotDivisor(d - 12) && NotDivisor(d - 13) && NotDivisor(d - 14) && NotDivisor(d - 15)
  }

  lemma ClearTo65()
    ensures SixteenClear(17) && SixteenClear(33) && SixteenClear(49) && SixteenClear(65)
  {
  }

  lemma ClearTo129()
    ensures SixteenClear(81) && SixteenClear(97) && SixteenClear(113) && SixteenClear(129)
  {
  }

  lemma ClearTo193()
    ensures SixteenClear(145) && SixteenClear(161) && SixteenClear(177) && SixteenClear(193)
  {
  }

  lemma ClearTo273()
    ensures SixteenClear(209) && SixteenClear(225) && SixteenClear(241) && SixteenClear(257) && SixteenClear(273)
  {
  }

  lemma ClearBelow(d: nat, e: nat)
    requires d >= 17 && SixteenClear(d) && d - 16 < e <= d
    ensures NotDivisor(e)
  {
    hide NotDivisor;
    assert e == d || e == d - 1 || e == d - 2 || e == d - 3 || e == d - 4 || e == d - 5 || e == d - 6
           || e == d - 7 || e == d - 8 || e == d - 9 || e == d - 10 || e == d - 11 || e == d - 12
           || e == d - 13 || e == d - 14 || e == d - 15;
  }

  lemma NoSmallDivisor(e: nat)
    requires 2 <= e <= 273
    ensures NotDivisor(e)
  {
    hide *;
    ClearTo65();
    ClearTo129();
    ClearTo193();
    ClearTo273();
    var q := (e - 2) / 16;
    assert q == 0 || q == 1 || q == 2 || q == 3 || q == 4 || q == 5 || q == 6 || q == 7 || q == 8 || q == 9
           || q == 10 || q == 11 || q == 12 || q == 13 || q == 14 || q == 15 || q == 16;
    ClearBelow(16 * q + 17, e);
  }

  lemma ProductLarge(a: nat, b: nat)
    requires a > 262 && b > 262
    ensures a * b > HSIZE
  {
    assert a * b >= 263 * b;
  }

  lemma FactorDivides(a: nat, b: nat, n: nat)
    requires a * b == n && a > 0 && b > 0
    ensures n % a == 0 && n % b == 0
  {
    MultipleMod(a, b);
    MultipleMod(b, a);
  }

  /** Every divisor of the table size is 1 or the table size. */
  lemma HsizePrime(a: nat, b: nat)
    requires a * b == HSIZE
    ensures a == 1 || b == 1
  {
    if a > 262 && b > 262 {
      ProductLarge(a, b);
    } else if a > 1 && b > 1 {
      FactorDivides(a, b, HSIZE);
      NoSmallDivisor(if a <= 262 then a else b);
    }
  }

  lemma MultipleMod(a: nat, b: nat)
    requires a > 0
    ensures (a * b) % a == 0
  {
    var q: int, r := (a * b) / a, (a * b) % a;
    var k := b - q;
    assert a * b == a * q + r;
    assert a * k == r;
    assert k >= 1 ==> a * k >= a;
    assert k <= -1 ==> a * k <= 0 - a;
  }

  /** Distances below the table size: a product of two is never a multiple of it. */
  lemma NoZeroProduct(k: nat, disp: nat)
    requires 0 < k < HSIZE && 0 < disp < HSIZE
    ensures (k * disp) % HSIZE != 0
  {
    if (k * disp) % HSIZE == 0 {
      var m := LeastKiller(disp, k);
      LeastDivides(disp, m, HSIZE);
      MultipleMod(HSIZE, disp);
      HsizePrime(m, HSIZE / m);
      assert false;
    }
  }

  ghost predicate Kills(disp: nat, m: nat) {
    m > 0 && (m * disp) % HSIZE == 0
  }

  /** The least positive multiplier that takes `disp` to a multiple of the table size. */
  lemma {:induction false} LeastKiller(disp: nat, k: nat) returns (m: nat)
    requires Kills(disp, k)
    ensures Kills(disp, m) && m <= k
    ensures forall j: nat :: j < m ==> !Kills(disp, j)
    decreases k
  {
    if j: nat :| j < k && Kills(disp, j) {
      m := LeastKiller(disp, j);
    } else {
      m := k;
    }
  }

  /** ... divides every other such multiplier. */
  lemma LeastDivides(disp: nat, m: nat, n: nat)
    requires Kills(disp, m) && forall j: nat :: j < m ==> !Kills(disp, j)
    requires Kills(disp, n)
    ensures n % m == 0
  {
    var q, r := n / m, n % m;
    assert n == m * q + r;
    var a, b := m * disp / HSIZE, n * disp / HSIZE;
    assert m * disp == HSIZE * a && n * disp == HSIZE * b;
    calc {
      r * disp;
      (n - m * q) * disp;
      n * disp - m * disp * q;
      HSIZE * b - HSIZE * a * q;
      HSIZE * (b - a * q);
    }
    IntMultipleMod(b - a * q, r * disp);
    assert r < m;
    assert !Kills(disp, r);
  }

  lemma IntMultipleMod(k: int, x: nat)
    requires x == HSIZE * k
    ensures x % HSIZE == 0
  {
  }
}
