/**
 * The retry loop of the connection manager, seen by itself: the backoff arithmetic and
 * the attempt limit.
 *
 * The multiplier is the rational `num / den`.  A delay is a 32-bit unsigned integer;
 * the product is truncated by the cast, which is defined only while it fits.
 */
module Backoff {
  import opened Bits

  datatype Config = Config(initial: nat, cap: nat, num: nat, den: nat, maxTries: int)

  const UINT32: nat := 0x1_0000_0000

  predicate Valid(c: Config) {
    c.den > 0
  }

  /** A multiplier of at least one, and a start below the cap. */
  predicate Rising(c: Config) {
    Valid(c) && c.initial <= c.cap && c.num >= c.den
  }

  /** The configurations of interest, with no overflow at the cap. */
  predicate Growing(c: Config) {
    Rising(c) && c.cap * c.num < UINT32 * c.den
  }

  /** The cast of the product to 32 bits is defined. */
  predicate CastIsDefined(c: Config, ms: nat)
    requires Valid(c)
  {
    ms * c.num / c.den < UINT32
  }

  function Next(c: Config, ms: nat): nat
    requires Valid(c)
  {
    Min(ms * c.num / c.den, c.cap)
  }

  /** The delay before attempt `k`, counting from zero. */
  function Delay(c: Config, k: nat): nat
    requires Valid(c)
  {
    if k == 0 then c.initial else Next(c, Delay(c, k - 1))
  }

  lemma {:induction false} QuotientBounds(x: nat, d: nat, low: nat)
    requires d > 0
    ensures low * d <= x ==> low <= x / d
    ensures x < low * d ==> x / d < low
  {
    DivisionEquation(x, d);
    var gap := low - x / d;
    assert low * d == d * (x / d) + d * gap;
    MultiplesAreSpaced(d, gap);
  }

  lemma {:induction false} ProductGrows(a: nat, b: nat, m: nat)
    requires a <= b
    ensures a * m <= b * m
  {
    assert b * m == a * m + (b - a) * m;
  }

  /** One growth step: the delay moves towards the cap. */
  lemma NextGrows(c: Config, ms: nat)
    requires Rising(c) && ms <= c.cap
    ensures ms <= Next(c, ms) <= c.cap
  {
    assert ms * c.num == ms * c.den + ms * (c.num - c.den);
    QuotientBounds(ms * c.num, c.den, ms);
  }

  /** A cast defined for one delay is defined for every smaller one. */
  lemma SmallerCastIsDefined(c: Config, ms: nat, most: nat)
    requires Valid(c) && ms <= most && CastIsDefined(c, most)
    ensures CastIsDefined(c, ms)
  {
    ProductGrows(ms, most, c.num);
    DivisionEquation(most * c.num, c.den);
    var q := most * c.num / c.den;
    assert (q + 1) * c.den == c.den * q + c.den;
    QuotientBounds(ms * c.num, c.den, q + 1);
  }

  lemma {:induction false} DelaysRise(c: Config, k: nat)
    requires Rising(c)
    ensures c.initial <= Delay(c, k) <= Delay(c, k + 1) <= c.cap
  {
    if k > 0 {
      DelaysRise(c, k - 1);
    }
    NextGrows(c, Delay(c, k));
  }

  /**
   * Truncation and cap together: the next delay is the largest whole number of
   * milliseconds up to the cap that is at most the multiplier times this one.
   */
  lemma NextDelayIsLargest(c: Config, k: nat, n: nat)
    requires Valid(c)
    ensures var next := Delay(c, k + 1);
      && next <= c.cap && next * c.den <= Delay(c, k) * c.num
      && (n <= c.cap && n * c.den <= Delay(c, k) * c.num ==> n <= next)
  {
    var x := Delay(c, k) * c.num;
    DivisionEquation(x, c.den);
    ProductGrows(Delay(c, k + 1), x / c.den, c.den);
    QuotientBounds(x, c.den, n);
  }

  /**
   * Every cast in the loop is defined, and the delays never decrease and stay between
   * the initial delay and the cap.
   */
  lemma DelaysGrowToTheCap(c: Config, k: nat)
    requires Growing(c)
    ensures c.initial <= Delay(c, k) <= Delay(c, k + 1) <= c.cap
    ensures CastIsDefined(c, Delay(c, k))
  {
    DelaysRise(c, k);
    QuotientBounds(c.cap * c.num, c.den, UINT32);
    SmallerCastIsDefined(c, Delay(c, k), c.cap);
  }

  /** One step gains at least one millisecond if the initial delay does. */
  predicate Moves(c: Config)
    requires c.num >= c.den
  {
    c.initial * (c.num - c.den) >= c.den
  }

  lemma NextMoves(c: Config, ms: nat)
    requires Rising(c) && Moves(c) && c.initial <= ms < c.cap
    ensures ms < Next(c, ms)
  {
    ProductGrows(c.initial, ms, c.num - c.den);
    assert ms * c.num == ms * c.den + ms * (c.num - c.den);
    assert (ms + 1) * c.den == ms * c.den + c.den;
    QuotientBounds(ms * c.num, c.den, ms + 1);
  }

  lemma {:induction false} CapReached(c: Config, k: nat)
    requires Rising(c) && Moves(c)
    ensures Delay(c, k) >= Min(c.initial + k, c.cap)
  {
    DelaysRise(c, k);
    if k > 0 {
      CapReached(c, k - 1);
      DelaysRise(c, k - 1);
      if Delay(c, k - 1) < c.cap {
        NextMoves(c, Delay(c, k - 1));
      }
    }
  }

  lemma NextStays(c: Config)
    requires Rising(c) && !Moves(c)
    ensures Next(c, c.initial) == c.initial
  {
    NextGrows(c, c.initial);
    assert c.initial * c.num == c.initial * c.den + c.initial * (c.num - c.den);
    assert (c.initial + 1) * c.den == c.initial * c.den + c.den;
    QuotientBounds(c.initial * c.num, c.den, c.initial + 1);
  }

  lemma {:induction false} StuckAtInitial(c: Config, k: nat)
    requires Rising(c) && !Moves(c)
    ensures Delay(c, k) == c.initial
  {
    if k > 0 {
      StuckAtInitial(c, k - 1);
      NextStays(c);
    }
  }

  /**
   * The delay settles at the cap within cap - initial steps exactly when one step gains
   * a whole millisecond (or it starts there); otherwise truncation keeps it at its
   * initial value for ever.
   */
  lemma CapIsReachedExactlyIfDelayMoves(c: Config)
    requires Rising(c)
    ensures (forall k: nat :: k >= c.cap - c.initial ==> Delay(c, k) == c.cap)
      <==> c.initial == c.cap || Moves(c)
  {
    if Moves(c) {
      forall k: nat | k >= c.cap - c.initial
        ensures Delay(c, k) == c.cap
      {
        CapReached(c, k);
        DelaysRise(c, k);
      }
    } else {
      forall k: nat
        ensures Delay(c, k) == c.initial
      {
        StuckAtInitial(c, k);
      }
      assert Delay(c, c.cap - c.initial) == c.initial;
    }
  }

  /**
   * With the cap itself in range, every cast in the loop is defined exactly if the delay
   * never moves or the cast is defined at the cap.
   */
  lemma CastsAreDefinedExactlyIf(c: Config)
    requires Rising(c) && c.cap < UINT32
    ensures (forall k: nat :: CastIsDefined(c, Delay(c, k))) <==> !Moves(c) || CastIsDefined(c, c.cap)
  {
    if !Moves(c) {
      forall k: nat
        ensures CastIsDefined(c, Delay(c, k))
      {
        StuckAtInitial(c, k);
        StuckCastIsDefined(c);
      }
    } else if CastIsDefined(c, c.cap) {
      forall k: nat
        ensures CastIsDefined(c, Delay(c, k))
      {
        DelaysRise(c, k);
        SmallerCastIsDefined(c, Delay(c, k), c.cap);
      }
    } else {
      CapReached(c, c.cap - c.initial);
      DelaysRise(c, c.cap - c.initial);
      assert !CastIsDefined(c, Delay(c, c.cap - c.initial));
    }
  }

  lemma StuckCastIsDefined(c: Config)
    requires Rising(c) && c.cap < UINT32 && !Moves(c)
    ensures CastIsDefined(c, c.initial)
  {
    assert c.initial * c.num == c.initial * c.den + c.initial * (c.num - c.den);
    assert (c.initial + 1) * c.den == c.initial * c.den + c.den;
    QuotientBounds(c.initial * c.num, c.den, c.initial + 1);
  }

  lemma NextDoubles(c: Config, ms: nat)
    requires Valid(c) && c.num == 2 * c.den
    ensures Next(c, ms) == Min(2 * ms, c.cap)
  {
    assert ms * c.num == c.den * (2 * ms) + 0;
    DivModUnique(ms * c.num, c.den, 2 * ms, 0);
  }

  /** With the default multiplier the delays double up to the cap. */
  lemma {:induction false} DoublesUpToTheCap(c: Config, k: nat)
    requires Rising(c) && c.num == 2 * c.den
    ensures Delay(c, k) == Min(c.initial * Pow2(k), c.cap)
  {
    if k > 0 {
      DoublesUpToTheCap(c, k - 1);
      NextDoubles(c, Delay(c, k - 1));
      DoubleOfMin(c.initial, Pow2(k - 1), c.cap);
    }
  }

  lemma DoubleOfMin(a: nat, x: nat, cap: nat)
    ensures Min(2 * Min(a * x, cap), cap) == Min(a * (2 * x), cap)
  {
    assert a * (2 * x) == 2 * (a * x);
  }

  // ---- The loop ----

  datatype Outcome = Reconnected | GaveUp | Halted

  /** Attempts allowed from a counter value `count`; unlimited when there is no limit. */
  predicate Allowed(c: Config, count: nat, k: nat) {
    c.maxTries > 0 ==> count + k < c.maxTries
  }

  /** Giving up ends a limited loop after exactly `max(0, maxTries - start)` attempts. */
  lemma LimitIsExact(c: Config, start: nat, n: nat)
    requires c.maxTries > 0 && forall k: nat :: k < n ==> Allowed(c, start, k)
    requires !Allowed(c, start, n)
    ensures n == if start < c.maxTries then c.maxTries - start else 0
  {
    if n > 0 {
      assert Allowed(c, start, n - 1);
    }
  }

  /**
   * `reconnect_loop`, entered with the retry counter at `start`.  The run flag is found
   * set at the first `runs` tests, and attempt `k` succeeds when `connects(k)`.  The
   * delays slept are returned in order; there is one for each attempt.
   */
  method ReconnectLoop(c: Config, start: nat, runs: nat, connects: nat -> bool)
    returns (outcome: Outcome, count: nat, delays: seq<nat>)
    requires Valid(c)
    ensures forall k {:trigger delays[k]} :: 0 <= k < |delays| ==> delays[k] == Delay(c, k)
    ensures forall k: nat :: k < |delays| ==> Allowed(c, start, k)
    ensures |delays| <= runs
    ensures forall k: nat :: k + 1 < |delays| ==> !connects(k)
    ensures outcome.Reconnected? <==> |delays| > 0 && connects(|delays| - 1)
    ensures outcome.GaveUp? <==>
      |delays| < runs && !Allowed(c, start, |delays|) && (|delays| > 0 ==> !connects(|delays| - 1))
    ensures outcome.GaveUp? ==> |delays| == if start < c.maxTries then c.maxTries - start else 0
    ensures outcome.Halted? ==> |delays| == runs
    ensures match outcome
      case Reconnected => count == 0
      case GaveUp => count == start + |delays| + 1
      case Halted => count == start + |delays|
  {
    var ms := c.initial;
    count, delays := start, [];
    while |delays| < runs
      invariant |delays| <= runs
      invariant count == start + |delays| && ms == Delay(c, |delays|)
      invariant forall k {:trigger delays[k]} :: 0 <= k < |delays| ==> delays[k] == Delay(c, k)
      invariant forall k: nat :: k < |delays| ==> Allowed(c, start, k)
      invariant forall k: nat :: k < |delays| ==> !connects(k)
      decreases runs - |delays|
    {
      count := count + 1;
      if c.maxTries > 0 && count > c.maxTries {
        LimitIsExact(c, start, |delays|);
        outcome := GaveUp;
        return;
      }
      var success := connects(|delays|);
      delays := delays + [ms];
      if success {
        count := 0;
        outcome := Reconnected;
        return;
      }
      ms := Next(c, ms);
    }
    outcome := Halted;
  }
}
