/** Division the way the client does it: a quotient of integers in floating point, rounded to
    53 significant bits with ties to even, and then cut to an integer. The result is the true
    quotient or one more, and exactly when is decided here. */
module Doubles {
  import opened Teal

  const TWO_52: nat := 0x10_0000_0000_0000

  /** How many doublings bring a quotient up to 53 bits before the point. */
  function Doublings(a: nat, b: nat): nat
    requires 0 < a && 0 < b
    decreases TWO_52 * b - a
  {
    if TWO_52 * b <= a then 0 else 1 + Doublings(2 * a, b)
  }

  /** The nearest integer to a quotient, the even one of two. */
  function Nearest(a: nat, b: nat): nat
    requires 0 < b
  {
    var q, r := a / b, a % b;
    if 2 * r < b || (2 * r == b && q % 2 == 0) then q else q + 1
  }

  /** `int(a / b)`; the quotient must have at most 53 bits before the point. */
  function IntOfQuotient(a: nat, b: nat): nat
    requires 0 < b && a < 2 * TWO_52 * b
  {
    if a == 0 then 0
    else
      var scale := Pow(2, Doublings(a, b));
      PowPositive(Doublings(a, b));
      Nearest(a * scale, b) / scale
  }

  /** The same for either sign: rounding is symmetric and cutting goes towards zero. */
  function IntDiv(a: int, b: nat): int
    requires 0 < b && -(2 * TWO_52 * b) < a < 2 * TWO_52 * b
  {
    if a < 0 then 0 - IntOfQuotient(-a, b) else IntOfQuotient(a, b)
  }

  lemma {:induction false} PowPositive(k: nat)
    ensures Pow(2, k) > 0 && (k > 0 ==> Pow(2, k) % 2 == 0)
  {
    hide Pow;
    PowZero();
    if k > 0 {
      PowPositive(k - 1);
      PowTwice(k - 1);
      Even(Pow(2, k), Pow(2, k - 1));
    }
  }

  lemma PowZero()
    ensures Pow(2, 0) == 1
  {
  }

  lemma PowTwice(k: nat)
    ensures Pow(2, k + 1) == 2 * Pow(2, k)
  {
  }

  lemma Even(n: nat, half: nat)
    requires n == 2 * half
    ensures n % 2 == 0
  {
  }

  // ---------- products ----------

  lemma Dist(x: int, y: int, z: int)
    ensures (x + y) * z == x * z + y * z && (x - y) * z == x * z - y * z
  {
  }

  lemma Swap(x: int, y: int, z: int)
    ensures (x * y) * z == (x * z) * y == x * (y * z)
  {
  }

  lemma MulMono(x: nat, y: nat, z: nat)
    requires x <= y
    ensures x * z <= y * z && (x < y && 0 < z ==> x * z < y * z)
  {
    Dist(y, x, z);
    assert 0 <= (y - x) * z;
  }

  lemma Cancel(x: nat, y: nat, z: nat)
    requires x * z < y * z
    ensures x < y
  {
    if y <= x { MulMono(y, x, z); }
  }

  // ---------- rounding and cutting ----------

  lemma DivUnique(n: nat, b: nat, d: nat, r: nat)
    requires 0 < b && r < b && n == d * b + r
    ensures n / b == d && n % b == r
  {
    var d', r' := n / b, n % b;
    assert n == d' * b + r';
    if d' < d { MulMono(d' + 1, d, b); Dist(d', 1, b); }
    if d < d' { MulMono(d + 1, d', b); Dist(d, 1, b); }
  }

  lemma DivPlus(x: nat, y: nat, b: nat)
    requires 0 < b
    ensures (x * b + y) / b == x + y / b && (x * b + y) % b == y % b
  {
    var d, r := y / b, y % b;
    assert y == d * b + r;
    Dist(x, d, b);
    DivUnique(x * b + y, b, x + d, r);
  }

  /** Whole units do not take part in the rounding. */
  lemma NearestPlus(x: nat, y: nat, b: nat)
    requires 0 < b && x % 2 == 0
    ensures Nearest(x * b + y, b) == x + Nearest(y, b)
  {
    DivPlus(x, y, b);
  }

  lemma NearestBelow(n: nat, b: nat, top: nat)
    requires 0 < b && n < top * b
    ensures Nearest(n, b) <= top
  {
    var d := n / b;
    assert n == d * b + n % b;
    Cancel(d, top, b);
  }

  lemma NearestTop(n: nat, b: nat, top: nat, gap: nat)
    requires 0 < gap <= b && top % 2 == 1 && n == top * b + (b - gap)
    ensures Nearest(n, b) == top + if 2 * gap <= b then 1 else 0
  {
    DivUnique(n, b, top, b - gap);
  }

  /** The fraction `r / b` in units of `1 / scale` rounds up to a whole exactly when it is no
      more than half a unit away from it. */
  lemma NearestFraction(r: nat, b: nat, scale: nat)
    requires r < b && 0 < scale && scale % 2 == 0
    ensures Nearest(r * scale, b) <= scale
    ensures Nearest(r * scale, b) == scale <==> 2 * ((b - r) * scale) <= b
  {
    hide Nearest;
    var n, gap := r * scale, (b - r) * scale;
    Dist(b, r, scale);
    Dist(scale, 1, b);
    MulMono(1, b - r, scale);
    assert n + gap == (scale - 1) * b + b;
    if gap <= b {
      NearestTop(n, b, scale - 1, gap);
    } else {
      NearestBelow(n, b, scale - 1);
    }
  }

  /** The cut quotient is the true one unless what is missing to the next is at most half a
      unit of the last place. */
  lemma CutRounded(a: nat, b: nat, scale: nat)
    requires 0 < b && 0 < scale && scale % 2 == 0
    ensures Nearest(a * scale, b) / scale == a / b + if 2 * ((b - a % b) * scale) <= b then 1 else 0
  {
    hide Nearest;
    var q, r := a / b, a % b;
    assert a == q * b + r;
    Dist(q * b, r, scale);
    Swap(q, b, scale);
    EvenProduct(q, scale);
    NearestPlus(q * scale, r * scale, b);
    NearestFraction(r, b, scale);
    CutSum(q, Nearest(r * scale, b), scale);
  }

  lemma CutSum(q: nat, n: nat, scale: nat)
    requires 0 < scale && n <= scale
    ensures (q * scale + n) / scale == q + if n == scale then 1 else 0
  {
    DivPlus(q, n, scale);
    if n == scale { DivUnique(n, scale, 1, 0); } else { DivUnique(n, scale, 0, n); }
  }

  lemma EvenProduct(q: nat, scale: nat)
    requires scale % 2 == 0
    ensures q * scale % 2 == 0
  {
    Swap(q, scale / 2, 2);
    assert q * scale == (q * (scale / 2)) * 2;
  }

  // ---------- how many doublings ----------

  /** The position of a number's leading bit. */
  function Log2(n: nat): nat
    requires 0 < n
  {
    if n == 1 then 0 else 1 + Log2(n / 2)
  }

  lemma {:induction false} LeadingBit(n: nat)
    requires 0 < n
    ensures Pow(2, Log2(n)) <= n < Pow(2, Log2(n) + 1)
  {
    if n > 1 { LeadingBit(n / 2); }
  }

  lemma {:induction false} PowGrows(j: nat, k: nat)
    requires j <= k
    ensures Pow(2, j) <= Pow(2, k)
  {
    if j < k { PowGrows(j, k - 1); }
  }

  lemma Powers()
    ensures Pow(2, 13) == 8192 && Pow(2, 14) == 16384 && Pow(2, 40) == 0x100_0000_0000 && Pow(2, 52) == TWO_52
  {
    assert Pow(2, 8) == 256;
    PowSum(8, 8);
    PowSum(16, 16);
    PowSum(8, 32);
    assert Pow(2, 12) == 4096;
    PowSum(12, 40);
  }

  lemma {:induction false} PowSum(j: nat, k: nat)
    ensures Pow(2, j) * Pow(2, k) == Pow(2, j + k)
  {
    if j > 0 {
      PowSum(j - 1, k);
      Swap(2, Pow(2, j - 1), Pow(2, k));
    }
  }

  lemma {:induction false} DoublingsIs(a: nat, b: nat, k: nat)
    requires 0 < a && 0 < b && TWO_52 * b <= a * Pow(2, k) < 2 * TWO_52 * b
    ensures Doublings(a, b) == k
    decreases k
  {
    if k > 0 {
      Swap(a, 2, Pow(2, k - 1));
      Swap(2, a, Pow(2, k - 1));
      assert a * Pow(2, k) == (2 * a) * Pow(2, k - 1);
      PowPositive(k - 1);
      MulMono(1, Pow(2, k - 1), 2 * a);
      DoublingsIs(2 * a, b, k - 1);
    }
  }

  lemma {:induction false} ManyDoublings(a: nat, b: nat, k: nat)
    requires 0 < a && 0 < b && a * Pow(2, k) < TWO_52 * b
    ensures Doublings(a, b) > k
    decreases k
  {
    PowPositive(k);
    MulMono(1, Pow(2, k), a);
    if k > 0 {
      Swap(a, 2, Pow(2, k - 1));
      Swap(2, a, Pow(2, k - 1));
      assert a * Pow(2, k) == (2 * a) * Pow(2, k - 1);
      ManyDoublings(2 * a, b, k - 1);
    }
  }

  lemma QuotientBetween(a: nat, b: nat, lo: nat, hi: nat)
    requires 0 < b && lo <= a / b < hi
    ensures lo * b <= a < hi * b
  {
    var q := a / b;
    assert a == q * b + a % b;
    Dist(q, 1, b);
    MulMono(lo, q, b);
    MulMono(q + 1, hi, b);
  }

  lemma QuotientBelow(a: nat, b: nat, hi: nat)
    requires 0 < b && a < hi * b
    ensures a / b < hi
  {
    assert a == (a / b) * b + a % b;
    Cancel(a / b, hi, b);
  }

  lemma QuotientPositive(a: nat, b: nat)
    requires 0 < b <= a
    ensures 0 < a / b
  {
    if a / b == 0 { DivUnique(a, b, 0, a % b); }
  }

  lemma LogBelow(q: nat, m: nat)
    requires 0 < q < Pow(2, m)
    ensures Log2(q) < m
  {
    LeadingBit(q);
    if m <= Log2(q) { PowGrows(m, Log2(q)); }
  }

  lemma LogOfQuotient(a: nat, b: nat)
    requires 0 < b && a < TWO_52 * b && 0 < a / b
    ensures Log2(a / b) <= 51
  {
    hide Log2, Pow;
    QuotientBelow(a, b, TWO_52);
    Powers();
    LogBelow(a / b, 52);
  }

  lemma DoublingsOf(a: nat, b: nat)
    requires 0 < b <= a < TWO_52 * b
    ensures 0 < a / b && Log2(a / b) <= 51 && Doublings(a, b) == 52 - Log2(a / b)
  {
    hide Log2, Doublings, Pow;
    var q := a / b;
    QuotientPositive(a, b);
    LogOfQuotient(a, b);
    Powers();
    LeadingBit(q);
    var e := Log2(q);
    QuotientBetween(a, b, Pow(2, e), Pow(2, e + 1));
    ScaledUp(a, b, e, 52 - e);
    DoublingsIs(a, b, 52 - e);
  }

  lemma ScaledUp(a: nat, b: nat, e: nat, k: nat)
    requires Pow(2, e) * b <= a < Pow(2, e + 1) * b
    ensures Pow(2, e + k) * b <= a * Pow(2, k) < 2 * Pow(2, e + k) * b
  {
    hide Pow;
    var p, scale := Pow(2, e), Pow(2, k);
    PowPositive(k);
    PowSum(e, k);
    PowSum(e + 1, k);
    PowTwice(e + k);
    MulMono(p * b, a, scale);
    MulMono(a, Pow(2, e + 1) * b, scale);
    Swap(p, b, scale);
    Swap(Pow(2, e + 1), b, scale);
  }

  // ---------- exactly when ----------

  /** What is missing to the next integer is more than half a unit in the last place of the
      quotient, which has `Log2` bits before the point and 53 in all. */
  predicate CutsExactly(a: nat, b: nat)
    requires 0 < b && a < TWO_52 * b
  {
    var q := a / b;
    q == 0 || (LogOfQuotient(a, b); (b - a % b) * Pow(2, 53 - Log2(q)) > b)
  }

  /** Cutting the rounded quotient gives the quotient, or one more, exactly as said. */
  lemma IntOfQuotientIs(a: nat, b: nat)
    requires 0 < b <= TWO_52 && a < TWO_52 * b
    ensures IntOfQuotient(a, b) == a / b + if CutsExactly(a, b) then 0 else 1
  {
    hide Nearest, Doublings, Log2;
    if a == 0 {
      DivUnique(a, b, 0, 0);
    } else {
      var k := Doublings(a, b);
      PowPositive(k);
      if a < b {
        DivUnique(a, b, 0, a);
        Powers();
        ManyDoublings(a, b, 52);
        PowGrows(52, k);
        CutRounded(a, b, Pow(2, k));
        MulMono(1, b - a, Pow(2, k));
      } else {
        DoublingsOf(a, b);
        CutRounded(a, b, Pow(2, k));
        Swap(b - a % b, 2, Pow(2, k));
        Swap(2, b - a % b, Pow(2, k));
      }
    }
  }

  /** Small quotients are always cut exactly. */
  lemma SmallQuotient(a: nat, b: nat, m: nat)
    requires 0 < m <= 52 && 0 < b < Pow(2, 54 - m) && a < Pow(2, m) * b
    ensures a < TWO_52 * b && CutsExactly(a, b)
  {
    hide Log2, Pow;
    var q := a / b;
    Powers();
    PowGrows(m, 52);
    MulMono(Pow(2, m), TWO_52, b);
    if q > 0 {
      QuotientBelow(a, b, Pow(2, m));
      LogBelow(q, m);
      PowGrows(54 - m, 53 - Log2(q));
      LargeGap(b - a % b, Pow(2, 53 - Log2(q)), b);
    }
  }

  lemma LargeGap(gap: nat, scale: nat, b: nat)
    requires 0 < gap && b < scale
    ensures gap * scale > b
  {
    MulMono(1, gap, scale);
  }

  /** The client's other divisions are of this kind. */
  lemma SmallDiv(a: nat, b: nat)
    requires 0 < b < 16384 && a < 0x100_0000_0000 * b
    ensures IntOfQuotient(a, b) == a / b
  {
    hide CutsExactly, IntOfQuotient;
    Powers();
    SmallQuotient(a, b, 40);
    IntOfQuotientIs(a, b);
  }
}
