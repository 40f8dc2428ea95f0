/** Division facts used by the wheel arithmetic. Every divisor is symbolic, so
    each nonlinear step is proved once here. */
module Arith {

  function Residue(x: nat, n: nat): (c: nat)
    requires 0 < n
    ensures c < n
  {
    x % n
  }

  /** Distinct multiples of r are at least r apart. */
  lemma MultiplesApart(a: int, b: int, r: int)
    requires 0 < r
    ensures a < b ==> a * r + r <= b * r
  {
    if a < b {
      assert (b - a) * r >= r by {
        assert (b - a - 1) * r >= 0;
      }
    }
  }

  /** The quotient is the only k with k * r <= x < k * r + r. */
  lemma QuotientUnique(x: nat, k: int, r: nat)
    requires 0 < r && k * r <= x < k * r + r
    ensures x / r == k && x % r == x - k * r
  {
    MultiplesApart(x / r, k, r);
    MultiplesApart(k, x / r, r);
  }

  /** Dividing what is left after k whole units, and adding the units back. */
  lemma QuotientAfterUnits(x: nat, k: nat, r: nat)
    requires 0 < r && k * r <= x
    ensures k + (x - k * r) / r == x / r
  {
    var q := (x - k * r) / r;
    assert (k + q) * r == k * r + q * r;
    QuotientUnique(x, k + q, r);
  }

  lemma QuotientMonotone(x: nat, y: nat, r: nat)
    requires 0 < r && x <= y
    ensures x / r <= y / r
  {
    MultiplesApart(y / r, x / r, r);
  }

  lemma QuotientBelow(x: nat, n: nat, r: nat)
    requires 0 < r && x < r * n
    ensures x / r < n
  {
  }

  lemma QuotientTimes(x: nat, r: nat)
    requires 0 < r
    ensures (x / r) * r <= x < (x / r) * r + r
  {
  }

  /** Fewer than n units apart in quotients is fewer than n units apart. */
  lemma QuotientsClose(x: nat, y: nat, n: nat, r: nat)
    requires 0 < r && y / r - x / r < n
    ensures y - x < r * n
  {
    var p, q := x / r, y / r;
    QuotientTimes(x, r);
    QuotientTimes(y, r);
    MultiplesApart(q, p + n, r);
    assert (p + n) * r == p * r + r * n;
  }

  /** A quotient grows by one exactly when the dividend reaches a multiple. */
  lemma QuotientSuccessor(x: nat, r: nat)
    requires 0 < r
    ensures (x + 1) / r == x / r + (if (x + 1) % r == 0 then 1 else 0)
  {
    var k := x / r;
    if x + 1 == k * r + r {
      assert (k + 1) * r == x + 1;
      QuotientUnique(x + 1, k + 1, r);
    } else {
      QuotientUnique(x + 1, k, r);
    }
  }

  lemma TwoDigits(p: nat, m: nat, y: nat, r: nat, n: nat)
    requires 0 < r && 0 < n && m < n && y < r
    ensures 0 <= m * r + y < r * n
    ensures m * r + y == 0 <==> m == 0 && y == 0
    ensures (p * n + m) * r + y == p * (r * n) + (m * r + y)
  {
    MultiplesApart(m, n, r);
    MultiplesApart(0, m, r);
    assert (p * n) * r == p * (r * n);
  }

  /** Mixed radix: the next digit wraps exactly at a multiple of the product. */
  lemma ProductDivides(x: nat, r: nat, n: nat, rn: nat)
    requires 0 < r && 0 < n && rn == r * n && 0 < rn
    ensures x / r / n == x / rn
    ensures x % rn == 0 <==> x % r == 0 && (x / r) % n == 0
  {
    Digits(x, x / r, x % r, (x / r) / n, (x / r) % n, r, n, rn);
  }

  /** The same with the digits named. */
  lemma Digits(x: nat, q: nat, y: nat, p: nat, m: nat, r: nat, n: nat, rn: nat)
    requires 0 < r && 0 < n && rn == r * n && 0 < rn
    requires x == q * r + y && y < r && q == p * n + m && m < n
    ensures x / rn == p && (x % rn == 0 <==> y == 0 && m == 0)
  {
    TwoDigits(p, m, y, r, n);
    QuotientUnique(x, p, rn);
  }

  /** Within one revolution two equal residues are the same number. */
  lemma SameResidue(x: nat, y: nat, n: nat)
    requires 0 < n && x <= y < x + n && x % n == y % n
    ensures x == y
  {
    MultiplesApart(x / n, y / n, n);
    QuotientMonotone(x, y, n);
  }

  /** Within a whole turn the residue comes again only at its end. */
  lemma TurnSameResidue(x: nat, y: nat, n: nat)
    requires 0 < n && x < y <= x + n
    ensures x % n == y % n <==> y == x + n
  {
    QuotientUnique(x + n, x / n + 1, n);
    if x % n == y % n && y < x + n {
      SameResidue(x, y, n);
    }
  }

  /** Numbers at least one and less than n units apart differ by at least one and at
      most n in their quotients. */
  lemma QuotientsApart(x: nat, y: nat, n: nat, r: nat)
    requires 0 < r && x + r <= y < x + r * n
    ensures x / r < y / r <= x / r + n
  {
    QuotientAbove(x, y, r);
    QuotientTimes(x, r);
    assert (x / r + n) * r == (x / r) * r + r * n;
    QuotientUnique((x / r + n) * r + r - 1, x / r + n, r);
    QuotientMonotone(y, (x / r + n) * r + r - 1, r);
  }

  lemma QuotientAbove(x: nat, y: nat, r: nat)
    requires 0 < r && x + r <= y
    ensures x / r < y / r
  {
    QuotientTimes(x, r);
    QuotientUnique(x + r, x / r + 1, r);
    QuotientMonotone(x + r, y, r);
  }
}
