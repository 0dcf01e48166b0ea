/** The relative strength index without its loop: which close counts how much. */
module SmoothingWeights {
  import opened Wrappers
  import opened Indicators

  /** The rise or the fall that ends at the `i`-th close. */
  function Rise(closes: seq<real>, i: nat): real
    requires 0 < i < |closes|
  {
    if closes[i - 1] < closes[i] then closes[i] - closes[i - 1] else 0.0
  }

  function Fall(closes: seq<real>, i: nat): real
    requires 0 < i < |closes|
  {
    if closes[i] < closes[i - 1] then closes[i - 1] - closes[i] else 0.0
  }

  function Part(up: bool, closes: seq<real>, i: nat): real
    requires 0 < i < |closes|
  {
    if up then Rise(closes, i) else Fall(closes, i)
  }

  function Power(r: real, k: nat): real
  {
    if k == 0 then 1.0 else Power(r, k - 1) * r
  }

  /** The values from the `i`-th to the last, each with a power of `r` for its age. */
  function Weighted(xs: seq<real>, r: real, i: nat, last: nat): real
    requires last < |xs|
    decreases last + 1 - i
  {
    if i > last then 0.0 else Power(r, last - i) * xs[i] + Weighted(xs, r, i + 1, last)
  }

  /** What a change leaves of the average of those before it. */
  function Ratio(period: nat): real
    requires period > 0
  {
    (period - 1) as real / period as real
  }

  /** The first change in full, and one `period`-th of each later one. */
  function Shares(up: bool, period: nat, closes: seq<real>, first: nat): (xs: seq<real>)
    requires period > 0
    ensures |xs| == |closes|
    ensures forall i :: 0 < i < |closes| ==>
              xs[i] == if i == first + 1 then Part(up, closes, i) else Part(up, closes, i) / period as real
  {
    seq(|closes|, i requires 0 <= i < |closes| =>
      if i == 0 then 0.0 else if i == first + 1 then Part(up, closes, i) else Part(up, closes, i) / period as real)
  }

  /** The changes after the close `first`, weighted by their age. */
  function Average(up: bool, period: nat, closes: seq<real>, first: nat, last: nat): real
    requires period > 0 && first < last < |closes|
  {
    Weighted(Shares(up, period, closes, first), Ratio(period), first + 1, last)
  }

  lemma BlendParts(s: real, v: real, n: real)
    requires n > 0.0
    ensures (s * (n - 1.0) + v) / n == s * ((n - 1.0) / n) + v / n
  {
    assert (s * ((n - 1.0) / n) + v / n) * n == s * (n - 1.0) + v;
  }

  lemma OneMore(k: real, r: real, p: real, w: real, q: real, kept: real, next: real, before: real)
    requires kept == k * r && next == w * r + q && before == k * p + w
    ensures kept * p + next == before * r + q
  {
    assert (k * r) * p == (k * p) * r;
    assert (k * p + w) * r == (k * p) * r + w * r;
  }

  lemma WeightedLast(xs: seq<real>, r: real, last: nat)
    requires last < |xs|
    ensures Weighted(xs, r, last, last) == xs[last]
  {
    assert Power(r, 0) == 1.0;
  }

  /** One value more: the earlier ones age by one. */
  lemma {:induction false} WeightedNext(xs: seq<real>, r: real, i: nat, last: nat)
    requires i < last < |xs|
    ensures Weighted(xs, r, i, last) == Weighted(xs, r, i, last - 1) * r + xs[last]
    decreases last - i
  {
    var w := Weighted(xs, r, i + 1, last - 1);
    if i + 1 < last {
      WeightedNext(xs, r, i + 1, last);
    } else {
      WeightedLast(xs, r, last);
    }
    OneMore(Power(r, last - 1 - i), r, xs[i], w, xs[last],
            Power(r, last - i), Weighted(xs, r, i + 1, last), Weighted(xs, r, i, last - 1));
  }

  lemma BlendNext(period: nat, s: real, v: real, share: real, next: real)
    requires period > 0 && share == v / period as real && next == s * Ratio(period) + share
    ensures next == Blend(period, s, v)
  {
    BlendParts(s, v, period as real);
  }

  lemma AverageAges(up: bool, period: nat, closes: seq<real>, first: nat, last: nat) returns (share: real)
    requires period > 0 && first + 1 < last < |closes|
    ensures share == Part(up, closes, last) / period as real
    ensures Average(up, period, closes, first, last) == Average(up, period, closes, first, last - 1) * Ratio(period) + share
  {
    var xs := Shares(up, period, closes, first);
    share := xs[last];
    WeightedNext(xs, Ratio(period), first + 1, last);
  }

  lemma AverageNext(up: bool, period: nat, closes: seq<real>, first: nat, last: nat)
    requires period > 0 && first + 1 < last < |closes|
    ensures Average(up, period, closes, first, last)
            == Blend(period, Average(up, period, closes, first, last - 1), Part(up, closes, last))
  {
    var share := AverageAges(up, period, closes, first, last);
    BlendNext(period, Average(up, period, closes, first, last - 1), Part(up, closes, last), share,
              Average(up, period, closes, first, last));
  }

  lemma AverageFirst(up: bool, period: nat, closes: seq<real>, first: nat)
    requires period > 0 && first + 1 < |closes|
    ensures Average(up, period, closes, first, first + 1) == Part(up, closes, first + 1)
  {
    WeightedLast(Shares(up, period, closes, first), Ratio(period), first + 1);
  }

  /** The smoothing loop gives each change its weight. */
  lemma {:induction false} SmoothedIsAverage(period: nat, closes: seq<real>, first: nat, last: nat)
    requires period > 0 && first < last < |closes|
    ensures Smoothed(period, closes, first, last)
            == Changes(Average(true, period, closes, first, last), Average(false, period, closes, first, last))
  {
    var change := ChangeOf(closes[last - 1], closes[last]);
    assert change == Changes(Part(true, closes, last), Part(false, closes, last));
    if last == first + 1 {
      AverageFirst(true, period, closes, first);
      AverageFirst(false, period, closes, first);
    } else {
      SmoothedIsAverage(period, closes, first, last - 1);
      AverageNext(true, period, closes, first, last);
      AverageNext(false, period, closes, first, last);
    }
  }

  lemma StrengthShare(u: real, d: real)
    requires u >= 0.0 && d >= 0.0
    ensures Strength(Changes(u, d)) * (u + d) == 100.0 * u
  {
    if d > 0.0 {
      StrengthTimes(u, d);
    }
  }

  /** The index is the share of the rises in all changes, in percent, over the last period + 1
      closes, the latest ones counting most; without any change it is 100. */
  lemma StrengthIsShare(period: nat, closes: seq<real>)
    requires period > 0 && |closes| > period
    ensures var first, last := |closes| - period - 1, |closes| - 1;
            var up, down := Average(true, period, closes, first, last), Average(false, period, closes, first, last);
            var index := RelativeStrength(period, closes).value;
            && up >= 0.0 && down >= 0.0 && index * (up + down) == 100.0 * up
            && (up == down == 0.0 ==> index == 100.0)
  {
    var first, last := |closes| - period - 1, |closes| - 1;
    SmoothedNotNegative(period, closes, first, last);
    SmoothedIsAverage(period, closes, first, last);
    StrengthShare(Average(true, period, closes, first, last), Average(false, period, closes, first, last));
  }
}
