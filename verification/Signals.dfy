/** The market making signal: three moving averages in lockstep and a strength filter. */
module Signals {
  import opened Wrappers
  import opened Indicators
  import SmoothingWeights

  datatype Quote = Quote(bid: real, ask: real, arrived: nat)

  datatype Prediction = Prediction(basePrice: real, signal: real, confidence: real, timeframe: nat, timestamp: nat)

  const STRENGTH_PERIOD: nat := 55

  function Mid(q: Quote): real
  {
    (q.bid + q.ask) / 2.0
  }

  /** Conversion to a signed 32-bit number. */
  function ToInt32(n: int): (r: int)
    ensures -0x8000_0000 <= r < 0x8000_0000 && (n - r) % 0x1_0000_0000 == 0
  {
    var m := n % 0x1_0000_0000;
    if m < 0x8000_0000 then m else m - 0x1_0000_0000
  }

  function GetMinute(arrived: nat): int
  {
    ToInt32(arrived / 60_000_000)
  }

  /** As long as the count of minutes fits 31 bits, it is the number of whole minutes. */
  lemma GetMinuteIs(arrived: nat)
    requires arrived < 60_000_000 * 0x8000_0000
    ensures 60_000_000 * GetMinute(arrived) <= arrived < 60_000_000 * (GetMinute(arrived) + 1)
  {
  }

  lemma MidIsHalfWay(q: Quote)
    ensures q.ask - Mid(q) == Mid(q) - q.bid
  {
  }

  /** Short average turning against two longer ones that point the other way. */
  predicate Turning(short: real, mid: real, long: real, shortSlope: real, midSlope: real, longSlope: real)
  {
    || (shortSlope < 0.0 && midSlope > 0.0 && longSlope > 0.0 && short > mid && mid > long)
    || (shortSlope > 0.0 && midSlope < 0.0 && longSlope < 0.0 && short < mid && mid < long)
  }

  /** A turn counts while the strength index is neither high nor low. */
  function Confidence(turning: bool, strength: Option<real>): real
  {
    if turning && (strength.Some? ==> 40.0 <= strength.value <= 60.0) then 0.04 else 0.0
  }

  class MarketMakingSignal {
    const short: SimpleMovingAverage
    const mid: SimpleMovingAverage
    const long: SimpleMovingAverage
    var minute: int
    var bookTicker: Quote
    var midCloses: seq<real>

    /** The three averages have all seen every close. */
    ghost predicate Valid()
      reads this, short, mid, long
    {
      && short != mid && mid != long && short != long
      && short.period == 8 && mid.period == 21 && long.period == 55
      && short.Tracks(midCloses) && mid.Tracks(midCloses) && long.Tracks(midCloses)
    }

    /** Construction sets neither the sums of the averages nor the first quote. */
    constructor (shortSum: real, midSum: real, longSum: real, unset: Quote)
      ensures Valid() && fresh(short) && fresh(mid) && fresh(long)
      ensures midCloses == [] && minute == 0 && bookTicker == unset
      ensures short.start == shortSum && mid.start == midSum && long.start == longSum
    {
      short := new SimpleMovingAverage(8, shortSum);
      mid := new SimpleMovingAverage(21, midSum);
      long := new SimpleMovingAverage(55, longSum);
      minute, bookTicker, midCloses := 0, unset, [];
    }

    /** The first quote of a new minute closes the one before it at the last mid price. */
    method OnBookTicker(ticker: Quote)
      requires Valid()
      modifies this, short, mid, long
      ensures Valid() && bookTicker == ticker
      ensures minute == Max(old(minute), GetMinute(ticker.arrived))
      ensures midCloses == if old(minute) < GetMinute(ticker.arrived) then old(midCloses) + [Mid(old(bookTicker))]
                           else old(midCloses)
      ensures short.start == old(short.start) && mid.start == old(mid.start) && long.start == old(long.start)
    {
      var now := GetMinute(ticker.arrived);
      if minute < now {
        ghost var before := midCloses;
        midCloses := midCloses + [Mid(bookTicker)];
        assert midCloses[..|midCloses| - 1] == before;
        UpdateAverages();
        minute := now;
      }
      bookTicker := ticker;
    }

    /** All three averages take in the new close. */
    method UpdateAverages()
      requires midCloses != [] && short != mid && mid != long && short != long
      requires short.period == 8 && mid.period == 21 && long.period == 55
      requires var before := midCloses[..|midCloses| - 1];
               short.Tracks(before) && mid.Tracks(before) && long.Tracks(before)
      modifies short, mid, long
      ensures short.Tracks(midCloses) && mid.Tracks(midCloses) && long.Tracks(midCloses)
      ensures short.start == old(short.start) && mid.start == old(mid.start) && long.start == old(long.start)
    {
      short.Update(midCloses);
      mid.Update(midCloses);
      long.Update(midCloses);
    }

    /** The averages advance together: once the longest has a slope, all have. */
    lemma Lockstep()
      requires Valid()
      ensures |long.smas| >= 2 <==> |midCloses| >= 56
      ensures |long.smas| >= 2 ==> |mid.smas| >= 2 && |short.smas| >= 2
      ensures RelativeStrength(STRENGTH_PERIOD, midCloses).Some? <==> |midCloses| >= 56
    {
    }

    /** What the averages and the index amount to once there are enough closes. */
    ghost function Outlook(): real
      requires Valid()
      reads this, short, mid, long
    {
      if |midCloses| < 56 then 0.0
      else
        Lockstep();
        Confidence(
          Turning(short.Get().value, mid.Get().value, long.Get().value,
                  short.GetSlope().value, mid.GetSlope().value, long.GetSlope().value),
          RelativeStrength(STRENGTH_PERIOD, midCloses))
    }

    /** The mean of the last `k` closes, up to what the sum `start` began with. */
    ghost function Recent(start: real, k: nat): real
      requires 0 < k <= |midCloses|
      reads this
    {
      (start + Sum(midCloses, |midCloses| - k, k)) / k as real
    }

    /** The last close is above the one `k` closes earlier, or below it. */
    ghost predicate Up(k: nat)
      requires k < |midCloses|
      reads this
    {
      midCloses[|midCloses| - 1] > midCloses[|midCloses| - 1 - k]
    }

    ghost predicate Down(k: nat)
      requires k < |midCloses|
      reads this
    {
      midCloses[|midCloses| - 1] < midCloses[|midCloses| - 1 - k]
    }

    lemma SlopeSign(x: real, y: real, k: real)
      requires k > 0.0
      ensures (x - y) / k > 0.0 <==> x > y
      ensures (x - y) / k < 0.0 <==> x < y
    {
    }

    lemma StrengthWithin(up: real, down: real, index: real)
      requires up >= 0.0 && down >= 0.0 && index * (up + down) == 100.0 * up && (up == down == 0.0 ==> index == 100.0)
      ensures 40.0 <= index <= 60.0 <==> up + down > 0.0 && 2.0 * (up + down) <= 5.0 * up <= 3.0 * (up + down)
    {
      if up + down > 0.0 {
        Percent(index, up + down, up);
      }
    }

    lemma Percent(index: real, all: real, part: real)
      requires all > 0.0 && index * all == 100.0 * part
      ensures 40.0 <= index <==> 2.0 * all <= 5.0 * part
      ensures index <= 60.0 <==> 5.0 * part <= 3.0 * all
    {
      var scaled := index * all;
      Larger(40.0, index, all, 40.0 * all, scaled);
      Larger(index, 60.0, all, scaled, 60.0 * all);
      PercentOf(index, all, part, scaled);
    }

    lemma PercentOf(index: real, all: real, part: real, scaled: real)
      requires scaled == 100.0 * part
      requires (40.0 <= index <==> 40.0 * all <= scaled) && (index <= 60.0 <==> scaled <= 60.0 * all)
      ensures 40.0 <= index <==> 2.0 * all <= 5.0 * part
      ensures index <= 60.0 <==> 5.0 * part <= 3.0 * all
    {
    }

    lemma Larger(x: real, y: real, k: real, xk: real, yk: real)
      requires k > 0.0 && xk == x * k && yk == y * k
      ensures x <= y <==> xk <= yk
    {
    }

    lemma TurnInCloses()
      requires Valid() && |midCloses| >= 56 && |short.smas| >= 2 && |mid.smas| >= 2 && |long.smas| >= 2
      ensures Turning(short.Get().value, mid.Get().value, long.Get().value,
                      short.GetSlope().value, mid.GetSlope().value, long.GetSlope().value)
              <==> || (Down(8) && Up(21) && Up(55)
                       && Recent(short.start, 8) > Recent(mid.start, 21) > Recent(long.start, 55))
                   || (Up(8) && Down(21) && Down(55)
                       && Recent(short.start, 8) < Recent(mid.start, 21) < Recent(long.start, 55))
    {
      var last, n := midCloses[|midCloses| - 1], |midCloses| - 1;
      short.SlopeIsDifference(midCloses);
      mid.SlopeIsDifference(midCloses);
      long.SlopeIsDifference(midCloses);
      SlopeSign(last, midCloses[n - 8], 8.0);
      SlopeSign(last, midCloses[n - 21], 21.0);
      SlopeSign(last, midCloses[n - 55], 55.0);
    }

    /** What the signal sees in the closes. It is confident, at 0.04, exactly if there are 56 closes,
        the last one is on one side of the close 8 earlier and on the other of those 21 and 55
        earlier, the means over 8, 21 and 55 closes are in the order of the longer trend, and the
        rises make up two to three fifths of the weighted changes. */
    lemma ConfidentIff()
      requires Valid()
      ensures Outlook() == 0.04 || Outlook() == 0.0
      ensures |midCloses| < 56 ==> Outlook() == 0.0
      ensures |midCloses| >= 56 ==>
                var n := |midCloses|;
                var up, down := SmoothingWeights.Average(true, 55, midCloses, n - 56, n - 1),
                                SmoothingWeights.Average(false, 55, midCloses, n - 56, n - 1);
                Outlook() == 0.04 <==>
                  && (|| (Down(8) && Up(21) && Up(55)
                          && Recent(short.start, 8) > Recent(mid.start, 21) > Recent(long.start, 55))
                      || (Up(8) && Down(21) && Down(55)
                          && Recent(short.start, 8) < Recent(mid.start, 21) < Recent(long.start, 55)))
                  && up + down > 0.0 && 2.0 * (up + down) <= 5.0 * up <= 3.0 * (up + down)
    {
      if |midCloses| >= 56 {
        var n := |midCloses|;
        Lockstep();
        TurnInCloses();
        SmoothingWeights.StrengthIsShare(STRENGTH_PERIOD, midCloses);
        StrengthWithin(SmoothingWeights.Average(true, 55, midCloses, n - 56, n - 1),
                       SmoothingWeights.Average(false, 55, midCloses, n - 56, n - 1),
                       RelativeStrength(STRENGTH_PERIOD, midCloses).value);
      }
    }

    /** Once the longest average has a slope every other value is there as well, so no access to a
        missing value can happen: each `.value` below is proved present. */
    method Predict(timestamp: nat) returns (p: Prediction)
      requires Valid()
      ensures p == Prediction(Mid(bookTicker), 0.0, Outlook(), 1_000_000, timestamp)
    {
      Lockstep();
      ghost var outlook := Outlook();
      p := Prediction(Mid(bookTicker), 0.0, 0.0, 1_000_000, timestamp);
      var shortAverage, midAverage, longAverage := short.Get(), mid.Get(), long.Get();
      var shortSlope, midSlope, longSlope := short.GetSlope(), mid.GetSlope(), long.GetSlope();
      if longSlope.None? {
        return;
      }
      var strength := CalculateRelativeStrength(STRENGTH_PERIOD, midCloses);
      var confidence := Decide(shortAverage.value, midAverage.value, longAverage.value,
                               shortSlope.value, midSlope.value, longSlope.value, strength);
      assert confidence == outlook;
      p := p.(confidence := confidence);
    }

    static method Decide(short: real, mid: real, long: real, shortSlope: real, midSlope: real, longSlope: real,
                         strength: Option<real>)
      returns (confidence: real)
      ensures confidence == Confidence(Turning(short, mid, long, shortSlope, midSlope, longSlope), strength)
    {
      confidence := 0.0;
      if shortSlope < 0.0 && midSlope > 0.0 && longSlope > 0.0 && short > mid && mid > long {
        confidence := 0.04;
      }
      if shortSlope > 0.0 && midSlope < 0.0 && longSlope < 0.0 && short < mid && mid < long {
        confidence := 0.04;
      }
      if strength.Some? && (strength.value > 60.0 || strength.value < 40.0) {
        confidence := 0.0;
      }
    }
  }
}
