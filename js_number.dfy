/**
 * Numeric conventions shared by every calculator: JavaScript's Math.round,
 * Math.floor and Math.ceil over exact reals, cent rounding, integer powers,
 * and the Option/Response wrappers that stand for `undefined`/`null`,
 * `Infinity` and HTTP error replies.
 */
module JsNumber {

  datatype Option<+T> = None | Some(value: T) {
    function GetOr(default: T): T {
      match this
      case Some(v) => v
      case None => default
    }
  }

  /** A request handler's outcome: a body, or an error status and message. */
  datatype Response<+T> = Ok(body: T) | Err(status: int, message: string)

  function Min(a: real, b: real): (r: real)
    ensures r <= a && r <= b && (r == a || r == b)
  {
    if a <= b then a else b
  }

  function Max(a: real, b: real): (r: real)
    ensures r >= a && r >= b && (r == a || r == b)
  {
    if a >= b then a else b
  }

  function Abs(x: real): (r: real)
    ensures r >= 0.0 && (r == x || r == -x)
  {
    if x < 0.0 then -x else x
  }

  /** Math.floor: the integer k with k <= x < k + 1 (see FloorBounds). */
  function Floor(x: real): int
  {
    x.Floor
  }

  /** Math.round: halves round towards +infinity, so Round(-2.5) == -2. */
  function Round(x: real): int
  {
    Floor(x + 0.5)
  }

  /** Math.ceil */
  function Ceil(x: real): int
  {
    var f := Floor(x);
    if f as real == x then f else f + 1
  }

  /** Math.round(x * 100) / 100: rounding to the cent. */
  function RoundCents(x: real): real
  {
    Round(x * 100.0) as real / 100.0
  }

  lemma FloorBounds(x: real)
    ensures Floor(x) as real <= x < Floor(x) as real + 1.0
  {
    assert x.Floor as real <= x < x.Floor as real + 1.0;
  }

  lemma FloorUnique(x: real, k: int)
    requires k as real <= x < k as real + 1.0
    ensures Floor(x) == k
  {
    FloorBounds(x);
  }

  lemma RoundBounds(x: real)
    ensures Round(x) as real - 0.5 <= x < Round(x) as real + 0.5
  {
    FloorBounds(x + 0.5);
  }

  lemma CeilBounds(x: real)
    ensures Ceil(x) as real - 1.0 < x <= Ceil(x) as real
  {
    FloorBounds(x);
  }

  lemma RoundCentsBounds(x: real)
    ensures x - 0.005 < RoundCents(x) <= x + 0.005
  {
    RoundBounds(x * 100.0);
  }

  /**
   * Math.round(part / whole * 1000) / 10, a percentage to one decimal place;
   * `None` when `whole` is 0 and JavaScript yields NaN or Infinity.
   */
  function TenthsPercent(part: real, whole: real): Option<real>
  {
    if whole == 0.0 then None else Some(Round(part / whole * 1000.0) as real / 10.0)
  }

  /** Math.pow with a natural exponent. */
  function Pow(b: real, n: nat): real
  {
    if n == 0 then 1.0 else b * Pow(b, n - 1)
  }

  function RealSum(s: seq<real>): real
  {
    if s == [] then 0.0 else RealSum(s[..|s| - 1]) + s[|s| - 1]
  }

  lemma MulMonotone(a: real, b: real, k: real)
    requires a <= b && k >= 0.0
    ensures a * k <= b * k
  {
  }

  lemma MulStrictlyMonotone(a: real, b: real, k: real)
    requires a < b && k > 0.0
    ensures a * k < b * k
  {
    assert (b - a) * k > 0.0;
  }

  /** Multiplying out a bound on a quotient. */
  lemma QuotientAtMost(a: real, k: real, x: real)
    requires k > 0.0 && a / k <= x
    ensures a <= x * k
  {
    MulMonotone(a / k, x, k);
  }

  lemma QuotientAbove(a: real, k: real, x: real)
    requires k > 0.0 && x < a / k
    ensures x * k < a
  {
    MulStrictlyMonotone(x, a / k, k);
  }

  lemma DivMonotone(a: real, b: real, k: real)
    requires a <= b && k > 0.0
    ensures a / k <= b / k
  {
  }

  /** A mean of values between `lo` and `hi` is between them too. */
  lemma MeanBetween(sum: real, n: real, lo: real, hi: real)
    requires n > 0.0 && lo * n <= sum <= hi * n
    ensures lo <= sum / n <= hi
  {
    var q := sum / n;
    assert q * n == sum;
    if q < lo {
      MulStrictlyMonotone(q, lo, n);
    }
    if q > hi {
      MulStrictlyMonotone(hi, q, n);
    }
  }

  /** A rounded mean of values between `lo` and `hi` is between their rounded values. */
  lemma RoundedMeanBetween(sum: real, n: real, lo: real, hi: real)
    requires n > 0.0 && lo * n <= sum <= hi * n
    ensures Round(lo) <= Round(sum / n) <= Round(hi)
  {
    MeanBetween(sum, n, lo, hi);
    RoundMonotone(lo, sum / n);
    RoundMonotone(sum / n, hi);
  }

  lemma MulNegativePositive(a: real, k: real)
    requires a < 0.0 && k > 0.0
    ensures a * k < 0.0
  {
  }

  lemma RoundMonotone(x: real, y: real)
    requires x <= y
    ensures Round(x) <= Round(y)
  {
    RoundBounds(x);
    RoundBounds(y);
  }

  lemma RoundOfInteger(k: int)
    ensures Round(k as real) == k
  {
    FloorUnique(k as real + 0.5, k);
  }

  lemma RoundCentsMonotone(x: real, y: real)
    requires x <= y
    ensures RoundCents(x) <= RoundCents(y)
  {
    RoundMonotone(x * 100.0, y * 100.0);
  }

  lemma RoundCentsNonNegative(x: real)
    requires x >= 0.0
    ensures RoundCents(x) >= 0.0
  {
    RoundBounds(x * 100.0);
  }

  lemma RoundCentsOfZero()
    ensures RoundCents(0.0) == 0.0
  {
    RoundOfInteger(0);
  }

  lemma {:induction false} PowPositive(b: real, n: nat)
    requires b > 0.0
    ensures Pow(b, n) > 0.0
  {
    if n > 0 {
      PowPositive(b, n - 1);
      assert Pow(b, n) == b * Pow(b, n - 1);
    }
  }

  lemma {:induction false} PowAtLeastOne(b: real, n: nat)
    requires b >= 1.0
    ensures Pow(b, n) >= 1.0
  {
    if n > 0 {
      PowAtLeastOne(b, n - 1);
      assert Pow(b, n) == b * Pow(b, n - 1);
    }
  }

  lemma {:induction false} PowAdd(b: real, m: nat, n: nat)
    ensures Pow(b, m + n) == Pow(b, m) * Pow(b, n)
  {
    if n > 0 {
      PowAdd(b, m, n - 1);
      assert Pow(b, m + n) == b * Pow(b, m + n - 1);
    }
  }

  lemma {:induction false} RealSumAppend(s: seq<real>, t: seq<real>)
    ensures RealSum(s + t) == RealSum(s) + RealSum(t)
  {
    if t != [] {
      assert (s + t)[..|s + t| - 1] == s + t[..|t| - 1];
      RealSumAppend(s, t[..|t| - 1]);
    } else {
      assert s + t == s;
    }
  }

  /** A sum of |s| terms each between lo and hi lies between |s|*lo and |s|*hi. */
  lemma {:induction false} RealSumBounds(s: seq<real>, lo: real, hi: real)
    requires forall i :: 0 <= i < |s| ==> lo <= s[i] <= hi
    ensures |s| as real * lo <= RealSum(s) <= |s| as real * hi
  {
    if s != [] {
      RealSumBounds(s[..|s| - 1], lo, hi);
      assert (|s| - 1) as real * lo + lo == |s| as real * lo;
      assert (|s| - 1) as real * hi + hi == |s| as real * hi;
    }
  }
}
