/** Two indicators over a series of closing prices: relative strength and rolling mean. */
module Indicators {
  import opened Wrappers

  // ----- Relative strength index -----

  /** Upward and downward parts, of one change or smoothed over several. */
  datatype Changes = Changes(up: real, down: real)

  function ChangeOf(previous: real, current: real): Changes
  {
    if current > previous then Changes(current - previous, 0.0) else Changes(0.0, previous - current)
  }

  /** The smoothed value, moved towards a new one by the share 1 / period. */
  function Blend(period: nat, smoothed: real, value: real): real
    requires period > 0
  {
    (smoothed * (period - 1) as real + value) / period as real
  }

  function Smooth(period: nat, s: Changes, c: Changes): Changes
    requires period > 0
  {
    Changes(Blend(period, s.up, c.up), Blend(period, s.down, c.down))
  }

  /** The smoothed changes of the closes from `first` to `last`. */
  function Smoothed(period: nat, closes: seq<real>, first: nat, last: nat): Changes
    requires period > 0 && first < last < |closes|
  {
    var change := ChangeOf(closes[last - 1], closes[last]);
    if last == first + 1 then change else Smooth(period, Smoothed(period, closes, first, last - 1), change)
  }

  function Strength(c: Changes): real
    requires c.up >= 0.0 && c.down >= 0.0
  {
    if c.down == 0.0 then 100.0
    else
      StrengthBase(c.up, c.down);
      100.0 - 100.0 / (1.0 + c.up / c.down)
  }

  function RelativeStrength(period: nat, closes: seq<real>): Option<real>
    requires period > 0
  {
    if |closes| <= period then None
    else
      SmoothedNotNegative(period, closes, |closes| - period - 1, |closes| - 1);
      Some(Strength(Smoothed(period, closes, |closes| - period - 1, |closes| - 1)))
  }

  method CalculateRelativeStrength(period: nat, closes: seq<real>) returns (index: Option<real>)
    requires period > 0
    ensures index == RelativeStrength(period, closes)
  {
    var size := |closes|;
    if size <= period {
      return None;
    }
    var first := size - period - 1;
    var up, down := CalculateChanges(closes[first], closes[first + 1]);
    var smoothedUp, smoothedDown := up, down;
    for i := first + 2 to size
      invariant Changes(smoothedUp, smoothedDown) == Smoothed(period, closes, first, i - 1)
    {
      up, down := CalculateChanges(closes[i - 1], closes[i]);
      var next := Smooth(period, Changes(smoothedUp, smoothedDown), Changes(up, down));
      smoothedUp, smoothedDown := next.up, next.down;
    }
    SmoothedNotNegative(period, closes, first, size - 1);
    if smoothedDown == 0.0 {
      return Some(100.0);
    }
    StrengthBase(smoothedUp, smoothedDown);
    index := Some(100.0 - 100.0 / (1.0 + smoothedUp / smoothedDown));
  }

  /** The change as the difference of its upward and downward part, of which one is zero. */
  method CalculateChanges(previous: real, current: real) returns (up: real, down: real)
    ensures Changes(up, down) == ChangeOf(previous, current)
    ensures up - down == current - previous
    ensures up >= 0.0 && down >= 0.0 && (up == 0.0 || down == 0.0)
  {
    if current > previous {
      up := current - previous;
      down := 0.0;
    } else {
      up := 0.0;
      down := previous - current;
    }
  }

  lemma StrengthBase(u: real, d: real)
    requires u >= 0.0 && d > 0.0
    ensures u / d >= 0.0 && (1.0 + u / d) * d == d + u
  {
  }

  lemma SmoothSigns(period: nat, s: Changes, c: Changes)
    requires period > 0 && s.up >= 0.0 && s.down >= 0.0 && c.up >= 0.0 && c.down >= 0.0
    ensures var r := Smooth(period, s, c); r.up >= 0.0 && r.down >= 0.0
    ensures var r := Smooth(period, s, c);
            period > 1 ==> (r.up == 0.0 <==> s.up == c.up == 0.0) && (r.down == 0.0 <==> s.down == c.down == 0.0)
  {
  }

  lemma {:induction false} SmoothedNotNegative(period: nat, closes: seq<real>, first: nat, last: nat)
    requires period > 0 && first < last < |closes|
    ensures var s := Smoothed(period, closes, first, last); s.up >= 0.0 && s.down >= 0.0
  {
    if last > first + 1 {
      SmoothedNotNegative(period, closes, first, last - 1);
      SmoothSigns(period, Smoothed(period, closes, first, last - 1), ChangeOf(closes[last - 1], closes[last]));
    }
  }

  /** Both averages vanish exactly when the closes they cover are all the same. */
  lemma {:induction false} SmoothedZeroIff(period: nat, closes: seq<real>, first: nat, last: nat)
    requires 0 < last - first <= period && last < |closes|
    ensures Smoothed(period, closes, first, last) == Changes(0.0, 0.0)
            <==> forall i :: first <= i <= last ==> closes[i] == closes[first]
  {
    if last > first + 1 {
      SmoothedZeroIff(period, closes, first, last - 1);
      SmoothedNotNegative(period, closes, first, last - 1);
      SmoothSigns(period, Smoothed(period, closes, first, last - 1), ChangeOf(closes[last - 1], closes[last]));
    }
  }

  lemma StrengthRange(c: Changes)
    requires c.up >= 0.0 && c.down >= 0.0
    ensures 0.0 <= Strength(c) <= 100.0
  {
  }

  /** The index lies between 0 and 100 for every series long enough. */
  lemma {:induction false} StrengthInRange(period: nat, closes: seq<real>)
    requires period > 0
    ensures var index := RelativeStrength(period, closes);
            (index.Some? <==> |closes| > period) && (index.Some? ==> 0.0 <= index.value <= 100.0)
  {
    if |closes| > period {
      SmoothedNotNegative(period, closes, |closes| - period - 1, |closes| - 1);
      StrengthRange(Smoothed(period, closes, |closes| - period - 1, |closes| - 1));
    }
  }

  function Negated(closes: seq<real>): seq<real>
  {
    seq(|closes|, i requires 0 <= i < |closes| => -closes[i])
  }

  lemma {:induction false} NegatedSwaps(period: nat, closes: seq<real>, first: nat, last: nat)
    requires period > 0 && first < last < |closes|
    ensures var s := Smoothed(period, closes, first, last);
            Smoothed(period, Negated(closes), first, last) == Changes(s.down, s.up)
  {
    var c := ChangeOf(closes[last - 1], closes[last]);
    assert ChangeOf(Negated(closes)[last - 1], Negated(closes)[last]) == Changes(c.down, c.up);
    if last > first + 1 {
      NegatedSwaps(period, closes, first, last - 1);
      var s := Smoothed(period, closes, first, last - 1);
      assert Smooth(period, Changes(s.down, s.up), Changes(c.down, c.up))
             == Changes(Blend(period, s.down, c.down), Blend(period, s.up, c.up));
    }
  }

  lemma StrengthTimes(u: real, d: real)
    requires u >= 0.0 && d > 0.0
    ensures (100.0 - Strength(Changes(u, d))) * (u + d) == 100.0 * d
  {
  }

  lemma StrengthMirror(u: real, d: real)
    requires u >= 0.0 && d >= 0.0
    ensures Strength(Changes(d, u)) == 100.0 - Strength(Changes(u, d)) <==> !(u == 0.0 && d == 0.0)
  {
    if u > 0.0 && d > 0.0 {
      StrengthTimes(u, d);
      StrengthTimes(d, u);
      MirrorSum(100.0 - Strength(Changes(u, d)), 100.0 - Strength(Changes(d, u)), u, d);
    } else if u > 0.0 {
      StrengthZero(u);
    } else if d > 0.0 {
      StrengthZero(d);
    }
  }

  lemma MirrorSum(a: real, b: real, u: real, d: real)
    requires u + d > 0.0 && a * (u + d) == 100.0 * d && b * (d + u) == 100.0 * u
    ensures a + b == 100.0
  {
  }

  lemma StrengthZero(d: real)
    requires d > 0.0
    ensures Strength(Changes(0.0, d)) == 0.0
  {
  }

  /** Turning the series upside down turns the index r into 100 - r, exactly unless the closes the
      index looks at are all the same: then both directions answer 100. */
  lemma StrengthMirrorIff(period: nat, closes: seq<real>)
    requires period > 0 && |closes| > period
    ensures RelativeStrength(period, Negated(closes)).value == 100.0 - RelativeStrength(period, closes).value
            <==> exists i :: |closes| - period <= i < |closes| && closes[i] != closes[|closes| - period - 1]
  {
    var first, last := |closes| - period - 1, |closes| - 1;
    var s := Smoothed(period, closes, first, last);
    SmoothedNotNegative(period, closes, first, last);
    SmoothedZeroIff(period, closes, first, last);
    NegatedSwaps(period, closes, first, last);
    StrengthMirror(s.up, s.down);
  }

  // ----- Simple moving average -----

  /** The sum of `n` closes from position `j` on. */
  function Sum(closes: seq<real>, j: nat, n: nat): real
    requires j + n <= |closes|
  {
    if n == 0 then 0.0 else Sum(closes, j, n - 1) + closes[j + n - 1]
  }

  function Mean(closes: seq<real>, j: nat, n: nat): real
    requires j + n <= |closes| && n > 0
  {
    Sum(closes, j, n) / n as real
  }

  /** A window moves on by gaining a close at the end and losing one at the front. */
  lemma {:induction false} SumSlides(closes: seq<real>, j: nat, n: nat)
    requires j + n < |closes|
    ensures Sum(closes, j + 1, n) == Sum(closes, j, n) + closes[j + n] - closes[j]
  {
    if n > 0 {
      SumSlides(closes, j, n - 1);
    }
  }

  lemma {:induction false} SumOfPrefix(closes: seq<real>, more: seq<real>, j: nat, n: nat)
    requires j + n <= |closes| && closes <= more
    ensures Sum(more, j, n) == Sum(closes, j, n)
  {
    if n > 0 {
      SumOfPrefix(closes, more, j, n - 1);
    }
  }

  /** The windows of a series without its last close, and how the last window moves on to it. */
  lemma WindowMoves(series: seq<real>, period: nat)
    requires series != [] && period > 0
    ensures var n, before := |series| - 1, series[..|series| - 1];
            && (forall j :: 0 <= j <= n - period ==> Sum(series, j, period) == Sum(before, j, period))
            && Sum(series, Max(0, n + 1 - period), Min(n + 1, period))
               == Sum(before, Max(0, n - period), Min(n, period)) + series[n]
                  - if n >= period then series[n - period] else 0.0
  {
    var n, before := |series| - 1, series[..|series| - 1];
    forall j | 0 <= j <= n - period
      ensures Sum(series, j, period) == Sum(before, j, period)
    {
      SumOfPrefix(before, series, j, period);
    }
    SumOfPrefix(before, series, Max(0, n - period), Min(n, period));
    if n >= period {
      SumSlides(series, n - period, period);
    }
  }

  lemma QuotientDifference(x: real, y: real, n: real)
    requires n > 0.0
    ensures x / n - y / n == (x - y) / n
  {
  }

  class SimpleMovingAverage {
    const period: nat
    var smas: seq<real>
    var sum: real
    var count: nat
    // The sum before the first close.
    ghost var start: real

    /** The averages follow the series: the running sum is that of the last `period` closes, and
        each stored value the mean of its window, off by what the sum started with. */
    ghost predicate Tracks(closes: seq<real>)
      reads this
    {
      && period > 0 && count == |closes|
      && sum == start + Sum(closes, Max(0, count - period), Min(count, period))
      && |smas| == Max(0, count - period + 1)
      && forall j :: 0 <= j < |smas| ==> smas[j] == (start + Sum(closes, j, period)) / period as real
    }

    /** `initialSum` is whatever the sum holds: construction leaves it unset. */
    constructor (period: nat, initialSum: real)
      requires period > 0
      ensures this.period == period && start == initialSum && Tracks([])
    {
      this.period := period;
      smas, sum, count := [], initialSum, 0;
      start := initialSum;
    }

    method Reset()
      requires period > 0
      modifies this
      ensures start == 0.0 && Tracks([])
    {
      smas, sum, count := [], 0.0, 0;
      start := 0.0;
    }

    /** Takes in the last close. If the series has grown by that one since the last call, the
        averages keep tracking it. */
    method Update(series: seq<real>)
      requires period > 0 && |series| >= count && series != [] && (count >= period ==> |series| > period)
      modifies this
      ensures start == old(start) && count == old(count) + 1
      ensures sum == old(sum) + series[|series| - 1]
                     - if old(count) >= period then series[|series| - 1 - period] else 0.0
      ensures smas == old(smas) + if count >= period then [sum / period as real] else []
      ensures old(Tracks(series[..|series| - 1])) ==> Tracks(series)
    {
      var size := |series|;
      assert size >= count;
      count := count + 1;
      sum := sum + series[size - 1];
      if count > period {
        sum := sum - series[size - 1 - period];
      }
      if count >= period {
        smas := smas + [sum / period as real];
      }
      if old(Tracks(series[..size - 1])) {
        WindowMoves(series, period);
      }
    }

    function Get(): (average: Option<real>)
      reads this
      ensures average.Some? <==> smas != []
    {
      if smas == [] then None else Some(smas[|smas| - 1])
    }

    function GetSlope(): (slope: Option<real>)
      reads this
      ensures slope.Some? <==> |smas| >= 2
    {
      if |smas| < 2 then None else Some(smas[|smas| - 1] - smas[|smas| - 2])
    }

    /** The slope depends only on the newest close and the one that dropped out for it; what the
        sum started with cancels. */
    lemma SlopeIsDifference(closes: seq<real>)
      requires Tracks(closes) && |smas| >= 2
      ensures GetSlope().value == (closes[|closes| - 1] - closes[|closes| - 1 - period]) / period as real
      ensures Get().value == (start + Sum(closes, |closes| - period, period)) / period as real
    {
      var j, n := |smas| - 2, period as real;
      SumSlides(closes, j, period);
      QuotientDifference(start + Sum(closes, j + 1, period), start + Sum(closes, j, period), n);
    }

    /** The stored averages are the means of their windows exactly if the sum started at zero, as
        `Reset` leaves it. */
    lemma MeansIff(closes: seq<real>, j: nat)
      requires Tracks(closes) && j < |smas|
      ensures smas[j] == Mean(closes, j, period) <==> start == 0.0
    {
      var total, n := Sum(closes, j, period), period as real;
      var x, y := (start + total) / n, total / n;
      assert x * n == start + total && y * n == total;
    }
  }
}
