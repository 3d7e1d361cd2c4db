/** The poller's back-off timer (`Sleeper` of util.py), in exact arithmetic and in binary64. */
module Sleeping {
  import opened Domain

  /** The sleep time for a given alpha, as `sleep_time` computes it. */
  function Duration(lo: real, hi: real, alpha: real): real {
    var t := alpha * alpha;
    lo * (1.0 - t) + hi * t
  }

  /** The guarded increment of alpha. */
  function Advance(alpha: real, step: real): real {
    if alpha < 1.0 then alpha + step else alpha
  }

  class Sleeper {
    const minTime: real
    const maxTime: real
    const stepSize: real
    ghost const steps: nat
    var alpha: real
    /** The number of increasing calls since the last reset. */
    ghost var calls: nat

    ghost predicate Valid()
      reads this
    {
      0.0 <= minTime <= maxTime && steps >= 1 && stepSize == 1.0 / steps as real
      && alpha == AlphaAfter(steps, calls)
    }

    constructor (lo: real, hi: real, n: nat)
      requires 0.0 <= lo <= hi && n >= 1
      ensures Valid() && minTime == lo && maxTime == hi && steps == n && calls == 0
    {
      minTime, maxTime, steps := lo, hi, n;
      stepSize := 1.0 / n as real;
      alpha, calls := 0.0, 0;
    }

    /** `Sleeper(min_time, max_time, steps_to_max)`: raises ValueError on a negative time or on
        fewer than one step, and swaps the two times when they come in the wrong order. */
    static method Create(lo: real, hi: real, n: int) returns (r: Result<Sleeper>)
      ensures r.Err? <==> lo < 0.0 || hi < 0.0 || n < 1
      ensures r.Err? ==> r.error.Retryable?
      ensures r.Ok? ==>
                fresh(r.value) && r.value.Valid() && r.value.calls == 0 && r.value.steps == n
                && {r.value.minTime, r.value.maxTime} == {lo, hi}
    {
      if lo < 0.0 || hi < 0.0 { return Err(Retryable); }
      if n < 1 { return Err(Retryable); }
      var s := new Sleeper(if lo > hi then hi else lo, if lo > hi then lo else hi, n);
      return Ok(s);
    }

    method Reset()
      requires Valid()
      modifies this
      ensures Valid() && calls == 0
    {
      alpha, calls := 0.0, 0;
    }

    method SleepTime(increase: bool) returns (t: real)
      requires Valid()
      modifies this
      ensures Valid() && calls == old(calls) + if increase then 1 else 0
      ensures t == Scheduled(minTime, maxTime, steps, old(calls))
      ensures var q := (if old(calls) < steps then old(calls) else steps) as real / steps as real;
              t == minTime + (maxTime - minTime) * (q * q)
    {
      AlphaClosedForm(steps, calls);
      AlphaClosedForm(steps, calls + 1);
      ScheduleClosedForm(minTime, maxTime, steps, calls);
      t := Duration(minTime, maxTime, alpha);
      if increase && alpha < 1.0 {
        alpha := alpha + stepSize;
      }
      if increase { calls := calls + 1; }
    }
  }

  /** Alpha after `k` increasing calls with step 1/n. */
  ghost function AlphaAfter(n: nat, k: nat): real
    requires n >= 1
  {
    if k == 0 then 0.0 else Advance(AlphaAfter(n, k - 1), 1.0 / n as real)
  }

  function Capped(k: nat, n: nat): nat { if k < n then k else n }

  /** The fraction of the way to the longest sleep that `k` calls have gone. */
  function Fraction(k: nat, n: nat): real
    requires n >= 1
  {
    Capped(k, n) as real / n as real
  }

  /** What the k-th increasing call after a reset promises, with k counted from 0. */
  function Scheduled(lo: real, hi: real, n: nat, k: nat): real
    requires n >= 1
  {
    lo + (hi - lo) * (Fraction(k, n) * Fraction(k, n))
  }

  lemma NextFraction(a: real, r: real)
    requires 0.0 <= a <= r && r >= 1.0
    ensures a / r + 1.0 / r == (a + 1.0) / r
    ensures a / r < 1.0 <==> a < r
  {
  }

  lemma {:induction false} AlphaClosedForm(n: nat, k: nat)
    requires n >= 1
    ensures AlphaAfter(n, k) == Fraction(k, n)
  {
    if k > 0 {
      AlphaClosedForm(n, k - 1);
      NextFraction((if k - 1 < n then k - 1 else n) as real, n as real);
    }
  }

  /** The computed time equals the schedule. */
  lemma ScheduleClosedForm(lo: real, hi: real, n: nat, k: nat)
    requires n >= 1
    ensures Duration(lo, hi, AlphaAfter(n, k)) == Scheduled(lo, hi, n, k)
  {
    AlphaClosedForm(n, k);
    var t := Fraction(k, n) * Fraction(k, n);
    assert lo * (1.0 - t) + hi * t == lo + (hi - lo) * t;
  }

  lemma ScaleOrder(d: real, x: real, y: real)
    requires d >= 0.0 && x <= y
    ensures d * x <= d * y
  {
  }

  lemma SquareOrder(x: real, y: real)
    requires 0.0 <= x <= y
    ensures 0.0 <= x * x <= y * y
  {
  }

  lemma QuotientOrder(a: real, b: real, r: real)
    requires r > 0.0 && a <= b
    ensures a / r <= b / r
  {
  }

  lemma FractionOrder(n: nat, j: nat, k: nat)
    requires n >= 1 && j <= k
    ensures 0.0 <= Fraction(j, n) <= Fraction(k, n) <= 1.0
    ensures Fraction(0, n) == 0.0 && (k >= n ==> Fraction(k, n) == 1.0)
  {
    var r, a, b := n as real, Capped(j, n) as real, Capped(k, n) as real;
    QuotientOrder(0.0, a, r);
    QuotientOrder(a, b, r);
    QuotientOrder(b, r, r);
    assert 0.0 / r == 0.0 && r / r == 1.0;
  }

  lemma DurationBlends(lo: real, hi: real, alpha: real)
    ensures Duration(lo, hi, alpha) == lo + (hi - lo) * (alpha * alpha)
  {
  }

  lemma BlendOrder(lo: real, hi: real, x: real, y: real)
    requires lo <= hi && 0.0 <= x <= y
    ensures lo + (hi - lo) * (x * x) <= lo + (hi - lo) * (y * y)
  {
  }

  /** Until the next reset the times never decrease, and they stay between the two bounds; the
      first is the shortest and from the n-th call on they are the longest. */
  lemma ScheduleRises(lo: real, hi: real, n: nat, j: nat, k: nat)
    requires n >= 1 && lo <= hi && j <= k
    ensures lo <= Scheduled(lo, hi, n, j) <= Scheduled(lo, hi, n, k) <= hi
    ensures Scheduled(lo, hi, n, 0) == lo
    ensures k >= n ==> Scheduled(lo, hi, n, k) == hi
  {
    FractionOrder(n, j, k);
    BlendOrder(lo, hi, 0.0, Fraction(j, n));
    BlendOrder(lo, hi, Fraction(j, n), Fraction(k, n));
    BlendOrder(lo, hi, Fraction(k, n), 1.0);
  }

  // ----- inexact addition -----

  lemma ProductPositive(x: real, y: real)
    requires x > 0.0 && y > 0.0
    ensures x * y > 0.0
  {
  }

  /** With any alpha at or above 0 the time stays within the longest sleep exactly when alpha
      has not passed 1, or the two times coincide. */
  lemma WithinMaximum(lo: real, hi: real, alpha: real)
    requires lo <= hi && alpha >= 0.0
    ensures Duration(lo, hi, alpha) <= hi <==> alpha <= 1.0 || lo == hi
  {
    var t := alpha * alpha;
    var x, y := hi - lo, t - 1.0;
    assert Duration(lo, hi, alpha) - hi == x * y;
    if alpha <= 1.0 {
      SquareOrder(alpha, 1.0);
      ScaleOrder(x, y, 0.0);
    } else if lo < hi {
      SquareOrder(0.0, alpha - 1.0);
      assert t == (alpha - 1.0) * (alpha - 1.0) + 2.0 * alpha - 1.0;
      ProductPositive(x, y);
    }
  }

  /** The alphas that `k` guarded increments reach with an arbitrary addition. */
  ghost function InexactAlpha(plus: real -> real, k: nat): real {
    if k == 0 then 0.0
    else
      var a := InexactAlpha(plus, k - 1);
      if a < 1.0 then plus(a) else a
  }

  /** All that the guard gives for an addition that overshoots no sum below 1 + step. */
  lemma {:induction false} GuardBound(plus: real -> real, step: real, lo: real, hi: real, k: nat)
    requires 0.0 <= step && 0.0 <= lo <= hi
    requires forall a :: 0.0 <= a < 1.0 ==> 0.0 <= plus(a) <= 1.0 + step
    ensures 0.0 <= InexactAlpha(plus, k) <= 1.0 + step
    ensures Duration(lo, hi, InexactAlpha(plus, k)) <= lo + (hi - lo) * ((1.0 + step) * (1.0 + step))
  {
    if k > 0 { GuardBound(plus, step, lo, hi, k - 1); }
    BlendOrder(lo, hi, InexactAlpha(plus, k), 1.0 + step);
    DurationBlends(lo, hi, InexactAlpha(plus, k));
  }

  // Binary64 numbers between 2^-4 and 2, in units of 2^-56.

  const ONE := 0x100_0000_0000_0000
  const TENTH := 7205759403792794

  /** The distance between neighbouring doubles around `x`. */
  function Ulp(x: nat): (u: nat)
    ensures u > 0
  {
    if x < 0x20_0000_0000_0000 then 1
    else if x < 0x40_0000_0000_0000 then 2
    else if x < 0x80_0000_0000_0000 then 4
    else if x < ONE then 8
    else 16
  }

  /** Round to nearest, ties to even. */
  function RoundTo(x: nat, u: nat): nat
    requires u > 0
  {
    var q, r := x / u, x % u;
    if 2 * r < u || (2 * r == u && q % 2 == 0) then q * u else (q + 1) * u
  }

  function PlusTenth(x: nat): nat {
    RoundTo(x + TENTH, Ulp(x + TENTH))
  }

  /** Alpha after `k` increasing calls of a default `Sleeper` (ten steps), in binary64. */
  function Alpha64(k: nat): nat {
    if k == 0 then 0
    else if Alpha64(k - 1) < ONE then PlusTenth(Alpha64(k - 1)) else Alpha64(k - 1)
  }

  /** Ten additions of 0.1 stay one unit in the last place below 1, so the guard lets an
      eleventh through and from then on alpha is about 1.1. */
  lemma TenTenthsFallShort()
    ensures Alpha64(10) == ONE - 8
    ensures Alpha64(11) == 79263353441720720 > ONE
  {
    assert Alpha64(1) == 7205759403792794;
    assert Alpha64(2) == 14411518807585588;
    assert Alpha64(3) == 21617278211378384;
    assert Alpha64(4) == 28823037615171176;
    assert Alpha64(5) == 36028797018963968;
    assert Alpha64(6) == 43234556422756760;
    assert Alpha64(7) == 50440315826549552;
    assert Alpha64(8) == 57646075230342344;
    assert Alpha64(9) == 64851834634135136;
    assert Alpha64(10) == 72057594037927928;
  }

  /** Once alpha has reached 1 no call changes it. */
  lemma {:induction false} Alpha64Stays(j: nat, k: nat)
    requires j <= k && Alpha64(j) >= ONE
    ensures Alpha64(k) == Alpha64(j)
  {
    if j < k { Alpha64Stays(j, k - 1); }
  }

  /** So with ten steps in binary64 a sleep is longer than the configured maximum exactly from the
      twelfth call on, unless the two times coincide. (`k` counts the increasing calls before it.) */
  lemma DefaultSleeperOvershoots(lo: real, hi: real, k: nat)
    requires 0.0 <= lo <= hi
    ensures Duration(lo, hi, Alpha64(k) as real / ONE as real) > hi <==> k >= 11 && lo != hi
  {
    TenTenthsFallShort();
    if k >= 11 {
      Alpha64Stays(11, k);
    } else if Alpha64(k) >= ONE {
      Alpha64Stays(k, 10);
    }
    var alpha := Alpha64(k) as real / ONE as real;
    assert alpha > 1.0 <==> k >= 11;
    WithinMaximum(lo, hi, alpha);
  }
}
