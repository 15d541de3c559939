/**
 * XP and level arithmetic. `xp_for_level` and `draw_bar` are identical in both front ends;
 * the two copies of `calculate_level` differ and live in the PerfectU and Widget modules.
 */
module Levels {

  /** XP needed to go from `level` to `level + 1`. */
  function XpForLevel(level: int): int {
    100 * level + 200
  }

  /** XP needed to go from level 1 to level n + 1: XpForLevel(1) + ... + XpForLevel(n). */
  function Cum(n: nat): int {
    if n == 0 then 0 else Cum(n - 1) + XpForLevel(n)
  }

  /** The escalating-cost curve: each level costs 100 XP more than the one before. */
  lemma XpForLevelIncreasing(a: int, b: int)
    requires a < b
    ensures XpForLevel(a) + 100 * (b - a) == XpForLevel(b)
  {
  }

  lemma {:induction false} CumClosedForm(n: nat)
    ensures Cum(n) == 50 * n * n + 250 * n
  {
    if n > 0 {
      CumClosedForm(n - 1);
    }
  }

  lemma {:induction false} CumIncreasing(i: nat, j: nat)
    requires i < j
    ensures Cum(i) < Cum(j)
  {
    if i < j - 1 {
      CumIncreasing(i, j - 1);
    }
  }

  /**
   * `level` is the level calculate_level assigns to `xp`: the least level whose cumulative
   * threshold `xp` has not reached. For xp >= 0 this is Cum(level - 1) <= xp < Cum(level).
   */
  predicate IsLevelOf(xp: int, level: int) {
    level >= 1 && xp < Cum(level) && (level == 1 || Cum(level - 1) <= xp)
  }

  /** Each XP total has at most one level. */
  lemma LevelUnique(xp: int, a: int, b: int)
    requires IsLevelOf(xp, a) && IsLevelOf(xp, b)
    ensures a == b
  {
    if a < b {
      if a < b - 1 { CumIncreasing(a, b - 1); }
    } else if b < a {
      if b < a - 1 { CumIncreasing(b, a - 1); }
    }
  }

  /** The level is non-decreasing in XP. */
  lemma LevelMonotone(x: int, y: int, a: int, b: int)
    requires x <= y && IsLevelOf(x, a) && IsLevelOf(y, b)
    ensures a <= b
  {
    if b < a && b < a - 1 {
      CumIncreasing(b, a - 1);
    }
  }

  /** Reaching a cumulative threshold exactly lands on the next level. */
  lemma {:induction false} BoundaryIsNextLevel(n: nat)
    ensures IsLevelOf(Cum(n), n + 1)
  {
    assert Cum(n + 1) == Cum(n) + XpForLevel(n + 1);
    if n > 0 {
      CumIncreasing(0, n);
    }
  }

  /** The levels of 0, 250 and 300 XP are 1, 1 and 2, and no other levels fit them. */
  lemma KnownLevels(level: int)
    ensures IsLevelOf(0, level) <==> level == 1
    ensures IsLevelOf(250, level) <==> level == 1
    ensures IsLevelOf(300, level) <==> level == 2
  {
    assert Cum(1) == 300 && Cum(2) == 700;
    assert IsLevelOf(0, 1) && IsLevelOf(250, 1) && IsLevelOf(300, 2);
    if IsLevelOf(0, level) { LevelUnique(0, level, 1); }
    if IsLevelOf(250, level) { LevelUnique(250, level, 1); }
    if IsLevelOf(300, level) { LevelUnique(300, level, 2); }
  }

  // ---------------------------------------------------------------------------
  // Progress bar

  const BarWidth: int := 20

  /** Python's int(a / b): the quotient truncated toward zero. */
  function TruncDiv(a: int, b: int): int
    requires b != 0
  {
    var m := (if a < 0 then -a else a) / (if b < 0 then -b else b);
    if (a < 0) == (b < 0) then m else -m
  }

  /** Python's `c * n` on a one-character string: empty when n <= 0. */
  function Repeat(c: char, n: int): (s: string)
    ensures |s| == if n > 0 then n else 0
    ensures forall i :: 0 <= i < |s| ==> s[i] == c
  {
    if n <= 0 then [] else [c] + Repeat(c, n - 1)
  }

  /**
   * Number of '=' cells. The source computes int((current / max_val) * 20) in floating point;
   * this is the exact rational value truncated toward zero. A zero maximum gives 0.
   */
  function Filled(current: int, maxVal: int): int {
    if maxVal == 0 then 0 else TruncDiv(current * BarWidth, maxVal)
  }

  function DrawBar(current: int, maxVal: int): string {
    var f := Filled(current, maxVal);
    "[" + Repeat('=', f) + Repeat(' ', BarWidth - f) + "]"
  }

  /** Python's clamp of a repeat count: a negative count repeats nothing. */
  function Pos(n: int): nat {
    if n > 0 then n else 0
  }

  /** The bar's shape for any input: brackets around `f` '=' cells, then spaces up to 20 cells. */
  lemma DrawBarShape(current: int, maxVal: int)
    ensures var f, bar := Filled(current, maxVal), DrawBar(current, maxVal);
      |bar| == 2 + Pos(f) + Pos(BarWidth - f) &&
      bar[0] == '[' && bar[|bar| - 1] == ']' &&
      forall i :: 1 <= i < |bar| - 1 ==> bar[i] == (if i <= f then '=' else ' ')
  {
    var f := Filled(current, maxVal);
    var eqs, sps := Repeat('=', f), Repeat(' ', BarWidth - f);
    var left := "[" + eqs;
    var right := sps + "]";
    var bar := left + right;
    assert bar == DrawBar(current, maxVal);
    assert |left| == 1 + Pos(f) && |right| == Pos(BarWidth - f) + 1;
    forall i | 1 <= i < |bar| - 1
      ensures bar[i] == (if i <= f then '=' else ' ')
    {
      if i < |left| {
        assert bar[i] == left[i] == eqs[i - 1];
      } else {
        assert bar[i] == right[i - |left|] == sps[i - |left|];
      }
    }
  }

  /** A zero maximum draws an empty bar: '[', 20 spaces, ']'. */
  lemma DrawBarZeroMax(current: int)
    ensures var bar := DrawBar(current, 0);
      |bar| == BarWidth + 2 && bar[0] == '[' && bar[BarWidth + 1] == ']' &&
      forall i :: 1 <= i <= BarWidth ==> bar[i] == ' '
  {
    DrawBarShape(current, 0);
  }

  /**
   * For 0 <= current <= max_val with max_val > 0 the bar is 22 characters and its first
   * floor(20 * current / max_val) cells (between 0 and 20) are filled.
   */
  lemma DrawBarInRange(current: int, maxVal: int)
    requires 0 <= current <= maxVal && 0 < maxVal
    ensures var f, bar := Filled(current, maxVal), DrawBar(current, maxVal);
      f == (BarWidth * current) / maxVal && 0 <= f <= BarWidth &&
      |bar| == BarWidth + 2 && bar[0] == '[' && bar[BarWidth + 1] == ']' &&
      forall i :: 1 <= i <= BarWidth ==> bar[i] == (if i <= f then '=' else ' ')
  {
    var f := Filled(current, maxVal);
    assert f == (current * BarWidth) / maxVal;
    DivAtMost(current * BarWidth, maxVal, BarWidth);
    DrawBarShape(current, maxVal);
  }

  /**
   * At or above a positive maximum the bar holds floor(20 * current / max_val) >= 20 cells and
   * no spaces; nothing caps the fill at 20.
   */
  lemma DrawBarAtOrAboveMax(current: int, maxVal: int)
    requires 0 < maxVal <= current
    ensures var f, bar := Filled(current, maxVal), DrawBar(current, maxVal);
      f == (BarWidth * current) / maxVal && f >= BarWidth && |bar| == 2 + f
  {
    var f := Filled(current, maxVal);
    assert f == (current * BarWidth) / maxVal;
    DivAtLeast(current * BarWidth, maxVal, BarWidth);
    DrawBarShape(current, maxVal);
  }

  /**
   * For a non-negative current value and a positive maximum, the bar keeps its 22 characters
   * exactly while 20 * current < 21 * max_val; from there on it grows by one character per
   * extra filled cell.
   */
  lemma DrawBarWidth(current: int, maxVal: int)
    requires 0 <= current && 0 < maxVal
    ensures |DrawBar(current, maxVal)| == BarWidth + 2 <==> BarWidth * current < (BarWidth + 1) * maxVal
    ensures BarWidth * current >= (BarWidth + 1) * maxVal ==>
      |DrawBar(current, maxVal)| == 2 + Filled(current, maxVal) > BarWidth + 2
  {
    var f := Filled(current, maxVal);
    assert f == (current * BarWidth) / maxVal;
    DrawBarShape(current, maxVal);
    DivAtLeast(current * BarWidth, maxVal, 0);
    if BarWidth * current < (BarWidth + 1) * maxVal {
      DivBelow(current * BarWidth, maxVal, BarWidth);
    } else {
      DivAtLeast(current * BarWidth, maxVal, BarWidth + 1);
    }
  }

  lemma DivBelow(x: int, d: int, k: int)
    requires 0 < d && x < d * (k + 1)
    ensures x / d <= k
  {
    var q := x / d;
    assert d * q <= x;
    assert d * (q - k - 1) == d * q - d * (k + 1);
    SignOfProduct(d, q - k - 1);
  }

  lemma DivAtMost(x: int, d: int, k: int)
    requires 0 < d && x <= d * k
    ensures x / d <= k
  {
    var q := x / d;
    assert d * q <= x;
    assert d * (q - k) == d * q - d * k;
    SignOfProduct(d, q - k);
  }

  lemma DivAtLeast(x: int, d: int, k: int)
    requires 0 < d && d * k <= x
    ensures k <= x / d
  {
    var q := x / d;
    assert x < d * q + d;
    assert d * (k - q - 1) == d * k - d * q - d;
    SignOfProduct(d, k - q - 1);
  }

  /** For a non-negative dividend the truncating quotient is the Euclidean one, so it stays in
      [0, k] when the dividend is at most k times the divisor. */
  lemma TruncDivWithin(a: int, d: int, k: int)
    requires 0 <= a <= d * k && 0 < d
    ensures 0 <= TruncDiv(a, d) <= k
  {
    assert TruncDiv(a, d) == a / d;
    DivAtLeast(a, d, 0);
    DivAtMost(a, d, k);
  }

  lemma SignOfProduct(d: int, e: int)
    requires 0 < d
    ensures e > 0 ==> d * e > 0
    ensures e >= 0 ==> d * e >= 0
  {
  }
}
