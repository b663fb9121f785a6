/** The player's level and points (model/user_counter.py). */
module Counter {
  /** How many whole units fit in a non-negative t. */
  function IntPart(t: real): int
    requires t >= 0.0
    decreases t.Floor
  {
    if t < 1.0 then 0 else 1 + IntPart(t - 1.0)
  }

  /** Python's `int(t)` on a float: the integer part, dropping the fraction
      toward zero. */
  function Trunc(t: real): int {
    if t >= 0.0 then IntPart(t) else -IntPart(-t)
  }

  /** The integer part of t is the largest whole number not above it. */
  lemma {:induction false} IntPartBounds(t: real)
    requires t >= 0.0
    ensures 0 <= IntPart(t) && IntPart(t) as real <= t < IntPart(t) as real + 1.0
    decreases t.Floor
  {
    if t >= 1.0 {
      IntPartBounds(t - 1.0);
    }
  }

  /** `Trunc` drops the fraction toward zero: the result lies within one of
      t, on the same side of zero, and no farther from zero than t. */
  lemma TruncToward0(t: real)
    ensures t >= 0.0 ==> 0 <= Trunc(t) && Trunc(t) as real <= t < Trunc(t) as real + 1.0
    ensures t < 0.0 ==> Trunc(t) <= 0 && Trunc(t) as real - 1.0 < t <= Trunc(t) as real
  {
    if t >= 0.0 {
      IntPartBounds(t);
    } else {
      IntPartBounds(-t);
    }
  }

  class UserCounter {
    var level: int
    var points: int

    /** A new counter: level 1, no points. */
    constructor ()
      ensures level == 1 && points == 0
    {
      level := 1;
      points := 0;
    }

    /** `won_level`: the remaining time, truncated, counts twice. */
    method WonLevel(time: real)
      modifies this
      ensures points == old(points) + 2 * Trunc(time) && level == old(level)
    {
      var seconds := Trunc(time);
      points := points + seconds * 2;
    }

    /** `increase_level` (the source's default quantity is 1). */
    method IncreaseLevel(quantity: int)
      modifies this
      ensures level == old(level) + quantity && points == old(points)
    {
      level := level + quantity;
    }

    /** `increase_points`. */
    method IncreasePoints(amount: int)
      modifies this
      ensures points == old(points) + amount && level == old(level)
    {
      points := points + amount;
    }

    /** `decrease_points`: subtract, but never below zero. */
    method DecreasePoints(amount: int)
      modifies this
      ensures points == (if old(points) - amount >= 0 then old(points) - amount else 0)
      ensures points >= 0 && level == old(level)
      ensures old(points) >= amount ==> points == old(points) - amount
    {
      if points - amount >= 0 {
        points := points - amount;
      } else {
        points := 0;
      }
    }

    /** `reset`: back to level 1 with no points. */
    method Reset()
      modifies this
      ensures level == 1 && points == 0
    {
      level := 1;
      points := 0;
    }

    /** `are_points_bigger_than`: at least `quantity` points; the bound itself counts. */
    function ArePointsBiggerThan(quantity: int): (r: bool)
      reads this
      ensures r <==> !(points < quantity)
    {
      points >= quantity
    }
  }
}
