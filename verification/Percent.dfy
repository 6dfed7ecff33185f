/** Levels and percentages of the mixer, in exact arithmetic: up with ceil, down with rint. */
module Percent {

  function Ceil(x: real): (n: int)
    ensures n as real - 1.0 < x <= n as real
  {
    -((-x).Floor)
  }

  /** Round to nearest, halves to even. */
  function Rint(x: real): (n: int)
    ensures -0.5 <= x - n as real <= 0.5
  {
    var f := x.Floor;
    if x - f as real < 0.5 then f
    else if x - f as real > 0.5 then f + 1
    else if f % 2 == 0 then f
    else f + 1
  }

  /** convert_prange: the percentage shown for a level. */
  function ToPercent(level: int, min: int, max: int): int {
    if max == min then 0
    else Rint((level - min) as real / (max - min) as real * 100.0)
  }

  /** convert_prange1: the level a percentage sets. */
  function ToLevel(percent: real, min: int, max: int): int {
    Ceil(percent * (max - min) as real * 0.01 + min as real)
  }

  /** check_range */
  function CheckRange(val: int, min: int, max: int, noCheck: bool): (r: int)
    ensures noCheck ==> r == val
    ensures !noCheck && min <= max ==> min <= r <= max
    ensures min <= val <= max ==> r == val
    ensures !noCheck && min <= max && val < min ==> r == min
    ensures !noCheck && min <= max && val > max ==> r == max
  {
    if noCheck then val else if val < min then min else if val > max then max else val
  }

  // Rounding.

  lemma CeilIs(x: real, n: int)
    requires n as real - 1.0 < x <= n as real
    ensures Ceil(x) == n
  {}

  lemma RintFrom(x: real, n: int)
    ensures n as real <= x ==> n <= Rint(x)
    ensures x <= n as real ==> Rint(x) <= n
    ensures n as real - 0.5 < x < n as real + 0.5 ==> Rint(x) == n
  {}

  lemma {:induction false} RintMonotone(x: real, y: real)
    requires x <= y
    ensures Rint(x) <= Rint(y)
  {
    if Rint(y) < Rint(x) {
      RintFrom(x, Rint(y));
      RintFrom(y, Rint(x));
    }
  }

  lemma HalfToEven()
    ensures Rint(0.5) == 0 && Rint(1.5) == 2
  {}

  // Products, kept apart so that proofs can treat them as plain numbers.

  function Times(a: real, b: real): real {
    a * b
  }

  lemma TimesOrder(a: real, b: real, r: real)
    requires r > 0.0
    ensures a <= b <==> Times(a, r) <= Times(b, r)
    ensures a < b <==> Times(a, r) < Times(b, r)
  {}

  lemma TimesAdd(a: real, b: real, r: real)
    ensures Times(a + b, r) == Times(a, r) + Times(b, r)
    ensures Times(a - b, r) == Times(a, r) - Times(b, r)
  {}

  lemma TimesHalf(r: real)
    ensures Times(0.5, r) == 0.5 * r
  {}

  lemma TimesQuotient(c: real, r: real)
    requires r != 0.0
    ensures Times(c / r, r) == c
  {}

  // The two conversions as inequalities.

  /** The level lies in the one step above percent * range / 100. */
  lemma {:induction false} LevelBounds(p: real, min: int, max: int)
    ensures var a := (ToLevel(p, min, max) - min) as real;
            100.0 * a - 100.0 < Times(p, (max - min) as real) <= 100.0 * a
  {
    hide Ceil;
    var x := Times(p, (max - min) as real);
    assert ToLevel(p, min, max) == Ceil(x * 0.01 + min as real);
  }

  /** The percentage before rounding. */
  function Exact(level: int, min: int, max: int): real
    requires min < max
  {
    (level - min) as real / (max - min) as real * 100.0
  }

  /** What rint rounds, times the range. */
  lemma PercentScaled(level: int, min: int, max: int)
    requires min < max
    ensures ToPercent(level, min, max) == Rint(Exact(level, min, max))
    ensures Times(Exact(level, min, max), (max - min) as real) == 100.0 * (level - min) as real
  {}

  // Ends, range, monotonicity.

  lemma {:induction false} Ends(min: int, max: int)
    requires min < max
    ensures ToLevel(0.0, min, max) == min && ToLevel(100.0, min, max) == max
    ensures ToPercent(min, min, max) == 0 && ToPercent(max, min, max) == 100
  {
    var r := (max - min) as real;
    CeilIs(min as real, min);
    CeilIs(max as real, max);
    assert 0.0 * r * 0.01 + min as real == min as real;
    assert 100.0 * r * 0.01 + min as real == max as real;
    RintFrom(0.0, 0);
    RintFrom(100.0, 100);
    assert 0.0 / r * 100.0 == 0.0;
    assert r / r == 1.0;
  }

  lemma {:induction false} LevelMonotone(p: real, q: real, min: int, max: int)
    requires min <= max && p <= q
    ensures ToLevel(p, min, max) <= ToLevel(q, min, max)
  {
    var r := (max - min) as real;
    assert p * r <= q * r;
  }

  lemma {:induction false} PercentMonotone(a: int, b: int, min: int, max: int)
    requires min <= max && a <= b
    ensures ToPercent(a, min, max) <= ToPercent(b, min, max)
  {
    hide Rint, Exact, Times;
    if min < max {
      var r := (max - min) as real;
      var x, y := Exact(a, min, max), Exact(b, min, max);
      PercentScaled(a, min, max);
      PercentScaled(b, min, max);
      TimesOrder(x, y, r);
      RintMonotone(x, y);
    }
  }

  /** A percentage between 0 and 100 sets a level of the range. */
  lemma {:induction false} LevelInRange(p: real, min: int, max: int)
    requires min <= max && 0.0 <= p <= 100.0
    ensures min <= ToLevel(p, min, max) <= max
  {
    if min == max {
      CeilIs(min as real, min);
    } else {
      Ends(min, max);
      LevelMonotone(0.0, p, min, max);
      LevelMonotone(p, 100.0, min, max);
    }
  }

  lemma {:induction false} PercentInRange(level: int, min: int, max: int)
    requires min <= level <= max
    ensures 0 <= ToPercent(level, min, max) <= 100
  {
    if min < max {
      Ends(min, max);
      PercentMonotone(min, level, min, max);
      PercentMonotone(level, max, min, max);
    }
  }

  /** A range of one level shows 0 percent, and every percentage sets that level. */
  lemma OneLevel(level: int, p: real, min: int)
    ensures ToPercent(level, min, min) == 0 && ToLevel(p, min, min) == min
  {
    CeilIs(min as real, min);
    assert p * 0.0 * 0.01 + min as real == min as real;
  }

  /** The percentage shown is the nearest to the level, in hundredths of the range; of two the even one. */
  lemma {:induction false} ShownIsNearest(level: int, min: int, max: int)
    requires min < max
    ensures var r, q := max - min, ToPercent(level, min, max);
            var off := 2 * (100 * (level - min) - q * r);
            -r <= off <= r && (off == r || off == -r ==> q % 2 == 0)
  {
    hide ToPercent, Times, Exact, Rint;
    var r, y, q := (max - min) as real, Exact(level, min, max), ToPercent(level, min, max);
    PercentScaled(level, min, max);
    TimesInts(q, max - min);
    RintNearest(y);
    TimesAdd(q as real, 0.5, r);
    TimesHalf(r);
    TimesOrder(y, q as real + 0.5, r);
    TimesOrder(q as real + 0.5, y, r);
    TimesOrder(q as real - 0.5, y, r);
    TimesOrder(y, q as real - 0.5, r);
  }

  lemma RintNearest(y: real)
    ensures var q := Rint(y);
            && q as real - 0.5 <= y <= q as real + 0.5
            && (y == q as real + 0.5 || y == q as real - 0.5 ==> q % 2 == 0)
  {}

  // Round trips.

  /**
   Setting p percent and reading the percentage back: never less than p, and less than
   100/range + 1/2 above it.
   */
  lemma {:induction false} SetThenShow(p: int, min: int, max: int)
    requires min < max
    ensures var q := ToPercent(ToLevel(p as real, min, max), min, max);
            && p <= q
            && q as real < p as real + 100.0 / (max - min) as real + 0.5
            && (max - min >= 200 ==> q == p)
  {
    hide *;
    var level := ToLevel(p as real, min, max);
    var r := (max - min) as real;
    var y, step := Exact(level, min, max), 100.0 / r;
    LevelBounds(p as real, min, max);
    PercentScaled(level, min, max);
    TimesOrder(p as real, y, r);
    TimesQuotient(100.0, r);
    TimesAdd(p as real, step, r);
    TimesOrder(y, p as real + step, r);
    TimesHalf(r);
    TimesOrder(step, 0.5, r);
    RintBetween(p, y, step);
  }

  lemma RintBetween(p: int, y: real, step: real)
    requires p as real <= y < p as real + step
    ensures p <= Rint(y) && Rint(y) as real < p as real + step + 0.5
    ensures step <= 0.5 ==> Rint(y) == p
  {
    RintFrom(y, p);
  }

  /** What ceil adds to p percent of a range, in hundredths of a level. */
  function Surplus(p: int, range: int): (m: nat)
    ensures m < 100
  {
    (-(p * range)) % 100
  }

  /**
   The percentage shown is the one set if and only if ceil has added less than half a percent,
   or exactly half a percent to an even percentage.
   */
  lemma {:induction false} SetThenShowIff(p: int, min: int, max: int)
    requires min < max
    ensures var m, r := Surplus(p, max - min), max - min;
            ToPercent(ToLevel(p as real, min, max), min, max) == p <==> 2 * m < r || (2 * m == r && p % 2 == 0)
  {
    hide ToLevel, ToPercent, Times, Exact, Rint, Surplus;
    var level := ToLevel(p as real, min, max);
    var r, y, m := (max - min) as real, Exact(level, min, max), Surplus(p, max - min);
    LevelBounds(p as real, min, max);
    PercentScaled(level, min, max);
    TimesInts(p, max - min);
    SurplusIs(p, max - min, level - min);
    assert Times(y, r) == Times(p as real, r) + m as real;
    TimesAdd(p as real, 0.5, r);
    TimesHalf(r);
    TimesOrder(y, p as real + 0.5, r);
    TimesOrder(p as real + 0.5, y, r);
    TimesOrder(p as real, y, r);
    RintAbove(p, y);
  }

  lemma TimesInts(p: int, n: int)
    ensures Times(p as real, n as real) == (p * n) as real
  {}

  lemma SurplusIs(p: int, range: int, a: int)
    requires 100 * a - 100 < p * range <= 100 * a
    ensures Surplus(p, range) == 100 * a - p * range
  {
    var x := -(p * range);
    assert (x + 100 * a) % 100 == x % 100;
  }

  lemma RintAbove(p: int, y: real)
    requires p as real <= y
    ensures Rint(y) == p <==> y < p as real + 0.5 || (y == p as real + 0.5 && p % 2 == 0)
  {
    if y < p as real + 1.0 {
      assert y.Floor == p;
    } else {
      RintFrom(y, p + 1);
    }
  }

  /** A range just below 200 where the percentage shown is not the one set. */
  lemma SetThenShowDrifts()
    ensures ToPercent(ToLevel(33.0, 0, 197), 0, 197) == 34
  {
    CeilIs(33.0 * 197.0 * 0.01 + 0.0, 66);
    assert ToLevel(33.0, 0, 197) == 66;
    RintFrom(66.0 / 197.0 * 100.0, 34);
  }

  /** Setting the percentage shown for a level. */
  function Reapplied(level: int, min: int, max: int): int {
    ToLevel(ToPercent(level, min, max) as real, min, max)
  }

  lemma {:induction false} ReapplyBounds(level: int, min: int, max: int)
    requires min < max
    ensures var r := (max - min) as real;
            var t := Times(ToPercent(level, min, max) as real, r);
            100.0 * (level - min) as real - 0.5 * r <= t <= 100.0 * (level - min) as real + 0.5 * r
  {
    hide *;
    var r, y := (max - min) as real, Exact(level, min, max);
    PercentScaled(level, min, max);
    var q := Rint(y) as real;
    TimesAdd(y, 0.5, r);
    TimesHalf(r);
    TimesOrder(y - 0.5, q, r);
    TimesOrder(q, y + 0.5, r);
  }

  /** On a range below 200 the level stays or goes up one step. */
  lemma {:induction false} ReapplyStays(level: int, min: int, max: int)
    requires min < max && max - min < 200
    ensures Reapplied(level, min, max) == level || Reapplied(level, min, max) == level + 1
  {
    hide ToLevel, ToPercent, Times;
    ReapplyBounds(level, min, max);
    LevelBounds(ToPercent(level, min, max) as real, min, max);
  }

  /** From 200 on, the first level above the minimum falls back to the minimum. */
  lemma {:induction false} ReapplyFalls(min: int, max: int)
    requires max - min >= 200
    ensures ToPercent(min + 1, min, max) == 0 && Reapplied(min + 1, min, max) == min
  {
    hide ToPercent, ToLevel, Rint, Times, Exact;
    var r, y := (max - min) as real, Exact(min + 1, min, max);
    PercentScaled(min + 1, min, max);
    TimesHalf(r);
    TimesOrder(y, 0.5, r);
    PercentMonotone(min, min + 1, min, max);
    Ends(min, max);
    RintMonotone(y, 0.5);
    HalfToEven();
  }

  /** The exact limit: re-applying what is shown never lowers a level if and only if the range is below 200. */
  lemma {:induction false} ReapplyIff(min: int, max: int)
    requires min < max
    ensures (forall level :: min <= level <= max ==> 0 <= Reapplied(level, min, max) - level <= 1)
            <==> max - min < 200
  {
    hide Reapplied;
    if max - min < 200 {
      forall level | min <= level <= max
        ensures 0 <= Reapplied(level, min, max) - level <= 1
      {
        ReapplyStays(level, min, max);
      }
    } else {
      ReapplyFalls(min, max);
      assert min <= min + 1 <= max && Reapplied(min + 1, min, max) - (min + 1) == -1;
    }
  }
}
