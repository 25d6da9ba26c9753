/**
 * Bitwise arithmetic on `std::size_t`, written out over the natural numbers.
 *
 * `And` is defined bit by bit, so that the power-of-two test, the index mask of the
 * ring buffer and the block-size rounding of the memory pool can all be related to
 * the arithmetic they stand for.
 */
module Bits {

  /** Width of `std::size_t` in bits. */
  const WIDTH: nat := 64

  function Min(a: nat, b: nat): nat { if a < b then a else b }

  function Pow2(k: nat): (r: nat)
    ensures r > 0
  {
    if k == 0 then 1 else 2 * Pow2(k - 1)
  }

  function And(a: nat, b: nat): nat
  {
    if a == 0 || b == 0 then 0
    else 2 * And(a / 2, b / 2) + (if a % 2 == 1 && b % 2 == 1 then 1 else 0)
  }

  /** `n > 0 && (n & (n - 1)) == 0`, as the static assertions spell it. */
  predicate PassesPowerOfTwoTest(n: nat) {
    n > 0 && And(n, n - 1) == 0
  }

  ghost predicate IsPowerOfTwo(n: nat) {
    exists k: nat :: n == Pow2(k)
  }

  lemma {:induction false} AndZeroHalves(a: nat, b: nat)
    requires And(a, b) == 0
    ensures And(a / 2, b / 2) == 0
  {}

  /** A power of two shares no bit with its predecessor. */
  lemma {:induction false} PowerPassesTest(k: nat)
    ensures And(Pow2(k), Pow2(k) - 1) == 0
  {
    if k > 0 {
      PowerPassesTest(k - 1);
      assert Pow2(k) / 2 == Pow2(k - 1);
      assert (Pow2(k) - 1) / 2 == Pow2(k - 1) - 1;
      assert Pow2(k) % 2 == 0;
    }
  }

  /** A number that shares no bit with its predecessor is a power of two. */
  lemma {:induction false} TestFindsPower(n: nat) returns (k: nat)
    requires PassesPowerOfTwoTest(n)
    ensures n == Pow2(k)
  {
    if n == 1 {
      k := 0;
    } else if n % 2 == 1 {
      assert n / 2 == (n - 1) / 2;
      AndZeroHalves(n, n - 1);
      AndSelf(n / 2);
      assert false;
    } else {
      assert (n - 1) / 2 == n / 2 - 1;
      AndZeroHalves(n, n - 1);
      var j := TestFindsPower(n / 2);
      k := j + 1;
    }
  }

  lemma {:induction false} AndSelf(a: nat)
    ensures And(a, a) == a
  {
    if a > 0 {
      AndSelf(a / 2);
    }
  }

  /** The compile-time test accepts exactly the powers of two. */
  lemma PowerOfTwoTestIsExact(n: nat)
    ensures PassesPowerOfTwoTest(n) <==> IsPowerOfTwo(n)
  {
    if PassesPowerOfTwoTest(n) {
      var k := TestFindsPower(n);
    }
    if IsPowerOfTwo(n) {
      var k: nat :| n == Pow2(k);
      PowerPassesTest(k);
    }
  }

  lemma {:induction false} HalvesOfMod(x: nat, m: nat)
    requires m > 0
    ensures x % (2 * m) == 2 * ((x / 2) % m) + x % 2
  {
    var q, r := (x / 2) / m, (x / 2) % m;
    assert x == (2 * m) * q + (2 * r + x % 2);
    DivModUnique(x, 2 * m, q, 2 * r + x % 2);
  }

  lemma MultiplesAreSpaced(m: nat, d: int)
    ensures d >= 1 ==> m * d >= m
    ensures d <= -1 ==> m * d <= 0 - m
  {
    if d >= 1 {
      assert m * d == m + m * (d - 1);
    } else if d <= -1 {
      assert m * d == m * (d + 1) - m;
    }
  }

  /** Zero is the only multiple of `m` strictly between `-m` and `m`. */
  lemma {:induction false} SmallMultipleIsZero(m: nat, d: int)
    requires 0 - m < m * d < m
    ensures d == 0
  {
    MultiplesAreSpaced(m, d);
  }

  lemma DivisionEquation(x: nat, m: nat)
    requires m > 0
    ensures x == m * (x / m) + x % m && x % m < m
  {}

  /** Quotient and remainder are determined by the division equation. */
  lemma {:induction false} DivModUnique(x: nat, m: nat, q: nat, r: nat)
    requires m > 0 && r < m && x == m * q + r
    ensures x % m == r && x / m == q
  {
    DivisionEquation(x, m);
    SameQuotient(m, x / m, x % m, q, r);
  }

  lemma {:induction false} SameQuotient(m: nat, q: int, r: nat, q': int, r': nat)
    requires r < m && r' < m && m * q + r == m * q' + r'
    ensures q == q' && r == r'
  {
    assert m * (q - q') == m * q - m * q';
    SmallMultipleIsZero(m, q - q');
  }

  /** Masking with `2^k - 1` is reduction modulo `2^k`. */
  lemma {:induction false} MaskIsMod(x: nat, k: nat)
    ensures And(x, Pow2(k) - 1) == x % Pow2(k)
  {
    if k > 0 {
      MaskIsMod(x / 2, k - 1);
      HalvesOfMod(x, Pow2(k - 1));
      assert (Pow2(k) - 1) / 2 == Pow2(k - 1) - 1;
      assert (Pow2(k) - 1) % 2 == 1;
    }
  }

  /** Masking with the `w`-bit complement of `2^k - 1` clears the low `k` bits. */
  lemma {:induction false} ComplementMaskClears(x: nat, k: nat, w: nat)
    requires k <= w && x < Pow2(w)
    ensures Pow2(k) <= Pow2(w)
    ensures And(x, Pow2(w) - Pow2(k)) == x - x % Pow2(k)
  {
    if k == 0 {
      MaskIsMod(x, w);
      ModBelow(x, Pow2(w));
    } else {
      ComplementMaskClears(x / 2, k - 1, w - 1);
      HalvesOfMod(x, Pow2(k - 1));
      assert (Pow2(w) - Pow2(k)) / 2 == Pow2(w - 1) - Pow2(k - 1);
      assert (Pow2(w) - Pow2(k)) % 2 == 0;
    }
  }

  lemma ModBelow(x: nat, m: nat)
    requires x < m
    ensures x % m == x
  {}

  lemma {:induction false} PowMonotone(i: nat, j: nat)
    requires i <= j
    ensures Pow2(i) <= Pow2(j)
  {
    if i < j {
      PowMonotone(i, j - 1);
    }
  }

  lemma {:induction false} PowSum(i: nat, j: nat)
    ensures Pow2(i + j) == Pow2(i) * Pow2(j)
  {
    if j > 0 {
      PowSum(i, j - 1);
      assert Pow2(i + j) == 2 * Pow2(i + j - 1);
    }
  }

  // ---- Residues used by the ring buffer ----

  /** Two counters less than one lap apart sit in different slots. */
  lemma {:induction false} WithinOneLap(i: nat, j: nat, m: nat)
    requires m > 0 && i <= j < i + m
    ensures i % m == j % m <==> i == j
  {
    if i % m == j % m {
      DivisionEquation(i, m);
      DivisionEquation(j, m);
      assert m * (j / m - i / m) == m * (j / m) - m * (i / m);
      SmallMultipleIsZero(m, j / m - i / m);
    }
  }

  lemma {:induction false} OneLapOn(j: nat, m: nat)
    requires m > 0
    ensures (j + m) % m == j % m
  {
    assert j + m == m * (j / m + 1) + j % m;
    DivModUnique(j + m, m, j / m + 1, j % m);
  }

  lemma {:induction false} ModOfSum(c: nat, i: nat, m: nat)
    requires m > 0
    ensures (c % m + i) % m == (c + i) % m
  {
    var x := c % m + i;
    DivisionEquation(c, m);
    DivisionEquation(x, m);
    JoinQuotients(c, i, m, c / m, c % m, x / m, x % m);
    DivModUnique(c + i, m, c / m + x / m, x % m);
  }

  lemma JoinQuotients(c: nat, i: nat, m: nat, q: nat, r: nat, q': nat, r': nat)
    requires c == m * q + r && r + i == m * q' + r'
    ensures c + i == m * (q + q') + r'
  {
    assert m * (q + q') == m * q + m * q';
  }

  lemma {:induction false} ModOfSuccessor(j: nat, m: nat)
    requires m > 0
    ensures (j % m + 1) % m == (j + 1) % m
  {
    ModOfSum(j, 1, m);
  }

  /** Adding one to a wrapped counter and masking wraps the counter plus one. */
  lemma {:induction false} MaskedSuccessor(j: nat, k: nat, w: nat)
    requires k < w
    ensures And((j % Pow2(k) + 1) % Pow2(w), Pow2(k) - 1) == (j + 1) % Pow2(k)
  {
    PowMonotone(k + 1, w);
    ModBelow(j % Pow2(k) + 1, Pow2(w));
    MaskIsMod(j % Pow2(k) + 1, k);
    ModOfSuccessor(j, Pow2(k));
  }

  /** Unsigned subtraction below zero wraps to the top of the word. */
  lemma {:induction false} WrapNegative(x: int, w: nat)
    requires 0 - w <= x < 0
    ensures x % w == x + w
  {
    assert x == w * (x / w) + x % w;
    assert w * (-1) == 0 - w;
    SameQuotient(w, x / w, x % w, -1, x + w);
  }

  /**
   * The unsigned difference of two wrapped counters, reduced again, is their true
   * distance, whenever they are less than one lap apart and the lap divides the
   * machine word.
   */
  lemma {:induction false} ModOfDifference(p: nat, c: nat, m: nat, w: nat)
    requires m > 0 && c <= p < c + m && m <= w && w % m == 0
    ensures ((p % m - c % m) % w) % m == p - c
  {
    var a, b := p % m, c % m;
    DivisionEquation(p, m);
    DivisionEquation(c, m);
    DivisionEquation(w, m);
    WrapStep(m, p / m, c / m, p - c, a, b);
    if a >= b {
      ModBelow(a - b, w);
      ModBelow(a - b, m);
    } else {
      WrapNegative(a - b, w);
      MultiplesAreSpaced(m, 0 - w / m);
      assert m * (w / m - 1) == w - m;
      DivModUnique(a - b + w, m, w / m - 1, m + a - b);
    }
  }

  /** Adding less than a lap to a residue wraps at most once. */
  lemma {:induction false} WrapStep(m: nat, qp: int, qc: int, d: nat, a: nat, b: nat)
    requires a < m && b < m && d < m
    requires m * qp + a == m * qc + b + d
    ensures a == if b + d < m then b + d else b + d - m
  {
    if b + d < m {
      SameQuotient(m, qp, a, qc, b + d);
    } else {
      assert m * (qc + 1) == m * qc + m;
      SameQuotient(m, qp, a, qc + 1, b + d - m);
    }
  }

  /** A smaller power of two divides a larger one. */
  lemma PowerDivides(k: nat, w: nat)
    requires k <= w
    ensures Pow2(k) <= Pow2(w) && Pow2(w) % Pow2(k) == 0
  {
    PowMonotone(k, w);
    PowSum(k, w - k);
    assert Pow2(w) == Pow2(k) * Pow2(w - k) + 0;
    DivModUnique(Pow2(w), Pow2(k), Pow2(w - k), 0);
  }

  /** Subtraction of wrapped counters on `w`-bit words, masked, is their distance if that is below a lap. */
  lemma WrappedDistance(p: nat, c: nat, k: nat, w: nat)
    requires k <= w && c <= p < c + Pow2(k)
    ensures And((p % Pow2(k) - c % Pow2(k)) % Pow2(w), Pow2(k) - 1) == p - c
  {
    PowerDivides(k, w);
    ModOfDifference(p, c, Pow2(k), Pow2(w));
    MaskIsMod((p % Pow2(k) - c % Pow2(k)) % Pow2(w), k);
  }
}
