/**
 * The salary search of the military-equivalent calculator: a bisection over
 * a take-home function `net`, started on [target / 2, 2 * target], that stops
 * after twenty steps or as soon as the midpoint nets within 100 of the target.
 */
module SalarySearch {
  import opened JsNumber

  const Iterations: nat := 20
  const CloseEnough: real := 100.0

  /**
   * The early exit `Math.abs(netIncome - target) < 100`: the midpoint of the
   * interval nets within 100 of the target.
   */
  predicate CloseAt(net: real -> real, interval: (real, real), target: real)
  {
    var gap := net((interval.0 + interval.1) / 2.0) - target;
    -CloseEnough < gap < CloseEnough
  }

  /** One step: keep the half whose end nets on the far side of the target. */
  function Step(net: real -> real, interval: (real, real), target: real): (real, real)
  {
    var mid := (interval.0 + interval.1) / 2.0;
    if net(mid) < target then (mid, interval.1) else (interval.0, mid)
  }

  /** The search from step i on the interval [low, high]: the interval it ends with. */
  function Bisection(i: nat, low: real, high: real, target: real, net: real -> real): (real, real)
    decreases Iterations - i
  {
    if i >= Iterations || CloseAt(net, (low, high), target) then (low, high)
    else
      var next := Step(net, (low, high), target);
      Bisection(i + 1, next.0, next.1, target, net)
  }

  /** w halved k times, that is w / 2^k. */
  function Halved(w: real, k: nat): real
  {
    if k == 0 then w else Halved(w, k - 1) / 2.0
  }

  /**
   * The bisection loop: it ends with the interval Bisection describes, inside
   * the initial bracket [target / 2, 2 * target].
   */
  method Bisect(target: real, net: real -> real) returns (low: real, high: real)
    requires target > 0.0
    ensures (low, high) == Bisection(0, target * 0.5, target * 2.0, target, net)
    ensures target * 0.5 <= low <= high <= target * 2.0
  {
    low := target * 0.5;
    high := target * 2.0;
    var i := 0;
    ghost var (low0, high0) := (low, high);
    ghost var result := Bisection(0, low, high, target, net);
    while i < Iterations
      invariant 0 <= i <= Iterations
      invariant Bisection(i, low, high, target, net) == result
      invariant low0 <= low <= high <= high0
    {
      if CloseAt(net, (low, high), target) {
        BisectionStops(i, low, high, target, net);
        return;
      }
      BisectionNext(i, low, high, target, net);
      StepHalves(net, low, high, target);
      var mid := (low + high) / 2.0;
      StepKeeps(net, low, high, target, mid);
      if net(mid) < target {
        low := mid;
      } else {
        high := mid;
      }
      i := i + 1;
    }
    BisectionStops(i, low, high, target, net);
  }

  /** The half a step keeps: the upper one when the midpoint nets below the target. */
  lemma StepKeeps(net: real -> real, low: real, high: real, target: real, mid: real)
    requires mid == (low + high) / 2.0
    ensures net(mid) < target ==> Step(net, (low, high), target) == (mid, high)
    ensures net(mid) >= target ==> Step(net, (low, high), target) == (low, mid)
  {
  }

  /** After the last step, or once the midpoint is close enough, the search ends where it is. */
  lemma BisectionStops(i: nat, low: real, high: real, target: real, net: real -> real)
    requires i >= Iterations || CloseAt(net, (low, high), target)
    ensures Bisection(i, low, high, target, net) == (low, high)
  {
  }

  /** A step that is not the last and does not stop early moves the search on to the next interval. */
  lemma BisectionNext(i: nat, low: real, high: real, target: real, net: real -> real)
    requires i < Iterations && !CloseAt(net, (low, high), target)
    ensures Bisection(i, low, high, target, net)
         == Bisection(i + 1, Step(net, (low, high), target).0, Step(net, (low, high), target).1, target, net)
  {
  }

  /** A step keeps half of the interval: the new ends lie inside it, half as far apart. */
  lemma StepHalves(net: real -> real, low: real, high: real, target: real)
    requires low <= high
    ensures low <= Step(net, (low, high), target).0 <= Step(net, (low, high), target).1 <= high
    ensures Step(net, (low, high), target).1 - Step(net, (low, high), target).0 == (high - low) / 2.0
  {
  }

  /** The search ends inside its starting interval, each end unmoved or on its side of the target. */
  lemma {:induction false} BisectionEnds(i: nat, low: real, high: real, target: real, net: real -> real)
    requires low <= high
    ensures low <= Bisection(i, low, high, target, net).0 <= Bisection(i, low, high, target, net).1 <= high
    ensures Bisection(i, low, high, target, net).0 == low || net(Bisection(i, low, high, target, net).0) < target
    ensures Bisection(i, low, high, target, net).1 == high || net(Bisection(i, low, high, target, net).1) >= target
    decreases Iterations - i
  {
    if i < Iterations && !CloseAt(net, (low, high), target) {
      var next := Step(net, (low, high), target);
      StepHalves(net, low, high, target);
      BisectionEnds(i + 1, next.0, next.1, target, net);
    }
  }

  lemma {:induction false} HalvedHalf(w: real, k: nat)
    ensures Halved(w / 2.0, k) == Halved(w, k) / 2.0
  {
    if k > 0 {
      HalvedHalf(w, k - 1);
    }
  }

  /**
   * Either the final midpoint nets within 100 of the target, or every one of
   * the remaining steps halved the interval.
   */
  lemma {:induction false} BisectionWidth(i: nat, low: real, high: real, target: real, net: real -> real)
    requires i <= Iterations && low <= high
    ensures CloseAt(net, Bisection(i, low, high, target, net), target)
         || Bisection(i, low, high, target, net).1 - Bisection(i, low, high, target, net).0
            == Halved(high - low, Iterations - i)
    decreases Iterations - i
  {
    if i < Iterations && !CloseAt(net, (low, high), target) {
      var next := Step(net, (low, high), target);
      var k := Iterations - (i + 1);
      calc {
        Halved(next.1 - next.0, k);
        { StepHalves(net, low, high, target); }
        Halved((high - low) / 2.0, k);
        { HalvedHalf(high - low, k); }
        Halved(high - low, k) / 2.0;
        Halved(high - low, k + 1);
      }
      BisectionNext(i, low, high, target, net);
      BisectionWidth(i + 1, next.0, next.1, target, net);
      var ends := Bisection(i + 1, next.0, next.1, target, net);
      assert CloseAt(net, ends, target) || ends.1 - ends.0 == Halved(high - low, Iterations - i) by {
        assert k + 1 == Iterations - i;
      }
    } else {
      BisectionStops(i, low, high, target, net);
    }
  }

  /**
   * The salary the search settles on: the midpoint of its final interval,
   * rounded with Math.round. It is a whole number of dollars and lies, up to
   * the rounding, inside the initial bracket.
   */
  function SearchedSalary(target: real, net: real -> real): (salary: real)
    requires target > 0.0
    ensures salary == Round(salary) as real
    ensures target * 0.5 - 0.5 < salary <= target * 2.0 + 0.5
  {
    var (low0, high0) := (target * 0.5, target * 2.0);
    var interval := Bisection(0, low0, high0, target, net);
    var mid := (interval.0 + interval.1) / 2.0;
    BisectionEnds(0, low0, high0, target, net);
    assert low0 <= mid <= high0;
    RoundBounds(mid);
    RoundOfInteger(Round(mid));
    Round(mid) as real
  }
}
