/** Finding a pair of exchanges to trade between, and pricing both legs so that they cannot lose. */
module Arbitrages {
  import opened Wrappers
  import opened AccountBalances
  import Ledgers

  datatype Ticker = Ticker(exchange: string, symbol: Symbol, bid: real, ask: real, bidVolume: real, askVolume: real)

  datatype Params = Params(slippage: real, fee: real, dailyVolume: real)

  datatype Match = Match(bestBid: Ticker, bestAsk: Ticker, profit: real)

  datatype Prices = Prices(sell: real, buy: real)

  // ----- Matching -----

  /** The first ticker with the highest bid, among the positive ones. */
  ghost predicate IsBestBid(tickers: seq<Ticker>, best: Ticker)
  {
    exists i :: 0 <= i < |tickers| && tickers[i] == best && best.bid > 0.0
                && (forall j :: 0 <= j < |tickers| ==> tickers[j].bid <= best.bid)
                && (forall j :: 0 <= j < i ==> tickers[j].bid < best.bid)
  }

  /** The first ticker with the lowest ask. */
  ghost predicate IsBestAsk(tickers: seq<Ticker>, best: Ticker)
  {
    exists i :: 0 <= i < |tickers| && tickers[i] == best
                && (forall j :: 0 <= j < |tickers| ==> best.ask <= tickers[j].ask)
                && (forall j :: 0 <= j < i ==> best.ask < tickers[j].ask)
  }

  function NetProfit(sold: real, bought: real, bidFee: real, askFee: real, margin: real): real
  {
    (1.0 - bidFee - margin) * sold - (1.0 + askFee + margin) * bought
  }

  /** The profit per unit after fees, margin and slippage; none for an exchange not configured. */
  function CalculateProfit(params: map<string, Params>, margin: real, bestBid: Ticker, bestAsk: Ticker): Option<real>
  {
    if bestBid.exchange !in params || bestAsk.exchange !in params then None
    else
      var bidSide, askSide := params[bestBid.exchange], params[bestAsk.exchange];
      Some(NetProfit(bestBid.bid - bidSide.slippage, bestAsk.ask + askSide.slippage, bidSide.fee, askSide.fee, margin))
  }

  /** The best of the tickers looked at: no bid before a positive one, no ask before any. */
  ghost predicate BestSoFar(seen: seq<Ticker>, bestBid: Option<Ticker>, bestAsk: Option<Ticker>)
  {
    && (if bestBid.Some? then IsBestBid(seen, bestBid.value)
        else forall j :: 0 <= j < |seen| ==> seen[j].bid <= 0.0)
    && (if bestAsk.Some? then IsBestAsk(seen, bestAsk.value) else seen == [])
  }

  lemma NewBestAsk(seen: seq<Ticker>, t: Ticker)
    requires forall j :: 0 <= j < |seen| ==> t.ask < seen[j].ask
    ensures IsBestAsk(seen + [t], t)
  {
    assert (seen + [t])[|seen|] == t;
  }

  lemma NewBestBid(seen: seq<Ticker>, t: Ticker)
    requires t.bid > 0.0 && forall j :: 0 <= j < |seen| ==> seen[j].bid < t.bid
    ensures IsBestBid(seen + [t], t)
  {
    assert (seen + [t])[|seen|] == t;
  }

  lemma BestStep(seen: seq<Ticker>, t: Ticker, bestBid: Option<Ticker>, bestAsk: Option<Ticker>)
    requires BestSoFar(seen, bestBid, bestAsk)
    ensures var bid := if (if bestBid.None? then 0.0 else bestBid.value.bid) < t.bid then Some(t) else bestBid;
            var ask := if bestAsk.None? || bestAsk.value.ask > t.ask then Some(t) else bestAsk;
            BestSoFar(seen + [t], bid, ask)
  {
    if bestAsk.None? || bestAsk.value.ask > t.ask {
      NewBestAsk(seen, t);
    } else {
      KeepBestAsk(seen, t, bestAsk.value);
    }
    if (if bestBid.None? then 0.0 else bestBid.value.bid) < t.bid {
      NewBestBid(seen, t);
    } else if bestBid.Some? {
      KeepBestBid(seen, t, bestBid.value);
    }
  }

  predicate Configured(params: map<string, Params>, b: Ticker, a: Ticker)
  {
    b.exchange in params && a.exchange in params
  }

  /** What selling a unit on the one exchange and buying it on the other trades at, slippage included. */
  function SoldAt(params: map<string, Params>, b: Ticker): real
    requires b.exchange in params
  {
    b.bid - params[b.exchange].slippage
  }

  function BoughtAt(params: map<string, Params>, a: Ticker): real
    requires a.exchange in params
  {
    a.ask + params[a.exchange].slippage
  }

  function AfterFee(x: real, fee: real): real { x - fee * x }

  function WithFee(x: real, fee: real): real { x + fee * x }

  function MarginOn(margin: real, x: real, y: real): real { margin * (x + y) }

  /** What selling a unit and buying one leaves after the fees. */
  function Gain(params: map<string, Params>, b: Ticker, a: Ticker): real
    requires Configured(params, b, a)
  {
    AfterFee(SoldAt(params, b), params[b.exchange].fee) - WithFee(BoughtAt(params, a), params[a.exchange].fee)
  }

  /** What is left of the gain after the margin on both trades. */
  function Surplus(params: map<string, Params>, margin: real, b: Ticker, a: Ticker): real
    requires Configured(params, b, a)
  {
    Gain(params, b, a) - MarginOn(margin, SoldAt(params, b), BoughtAt(params, a))
  }

  /** The best pair, between named and configured exchanges, gains at least the margin. */
  ghost predicate Pays(params: map<string, Params>, margin: real, tickers: seq<Ticker>, b: Ticker, a: Ticker)
  {
    && IsBestBid(tickers, b) && IsBestAsk(tickers, a) && b.exchange != "" && a.exchange != "" && Configured(params, b, a)
    && Gain(params, b, a) >= MarginOn(margin, SoldAt(params, b), BoughtAt(params, a))
  }

  lemma Shares(x: real, y: real, f: real, g: real, margin: real)
    ensures NetProfit(x, y, f, g, margin) == AfterFee(x, f) - WithFee(y, g) - MarginOn(margin, x, y)
  {
  }

  /** The profit computed is exactly what is left after fees, slippage and margin. */
  lemma ProfitIsSurplus(params: map<string, Params>, margin: real, b: Ticker, a: Ticker)
    ensures CalculateProfit(params, margin, b, a)
            == if Configured(params, b, a) then Some(Surplus(params, margin, b, a)) else None
  {
    if Configured(params, b, a) {
      var p, q := params[b.exchange], params[a.exchange];
      var x, y := b.bid - p.slippage, a.ask + q.slippage;
      Shares(x, y, p.fee, q.fee, margin);
    }
  }

  /** The tickers, one per exchange, in the order of their names. A match is the best pair, if both
      exchanges have a name and the profit is not negative. */
  method FindMatch(params: map<string, Params>, margin: real, tickers: seq<Ticker>) returns (found: Option<Match>)
    requires forall i, j :: 0 <= i < j < |tickers| ==> tickers[i].exchange != tickers[j].exchange
    ensures found.Some? ==>
              && Pays(params, margin, tickers, found.value.bestBid, found.value.bestAsk)
              && found.value.profit == Surplus(params, margin, found.value.bestBid, found.value.bestAsk)
    ensures found.None? ==> forall b, a :: !Pays(params, margin, tickers, b, a)
  {
    if tickers == [] {
      return None;
    }
    var bestBid: Option<Ticker>, bestAsk: Option<Ticker> := None, None;
    for i := 0 to |tickers|
      invariant BestSoFar(tickers[..i], bestBid, bestAsk)
    {
      var ticker := tickers[i];
      BestStep(tickers[..i], ticker, bestBid, bestAsk);
      assert tickers[..i + 1] == tickers[..i] + [ticker];
      if bestAsk.None? || bestAsk.value.ask > ticker.ask {
        bestAsk := Some(ticker);
      }
      if (if bestBid.None? then 0.0 else bestBid.value.bid) < ticker.bid {
        bestBid := Some(ticker);
      }
    }
    assert tickers[..|tickers|] == tickers;
    if bestBid.None? || bestAsk.None? {
      return None;
    }
    BestAreUnique(tickers, bestBid.value, bestAsk.value);
    ProfitIsSurplus(params, margin, bestBid.value, bestAsk.value);
    if bestBid.value.exchange == "" || bestAsk.value.exchange == "" {
      return None;
    }
    var profit := CalculateProfit(params, margin, bestBid.value, bestAsk.value);
    if profit.Some? && profit.value >= 0.0 {
      return Some(Match(bestBid.value, bestAsk.value, profit.value));
    }
    found := None;
  }

  lemma KeepBestAsk(seen: seq<Ticker>, t: Ticker, best: Ticker)
    requires IsBestAsk(seen, best) && best.ask <= t.ask
    ensures IsBestAsk(seen + [t], best)
  {
    var i :| 0 <= i < |seen| && seen[i] == best && (forall j :: 0 <= j < |seen| ==> best.ask <= seen[j].ask)
             && (forall j :: 0 <= j < i ==> best.ask < seen[j].ask);
    assert (seen + [t])[i] == best;
  }

  lemma KeepBestBid(seen: seq<Ticker>, t: Ticker, best: Ticker)
    requires IsBestBid(seen, best) && t.bid <= best.bid
    ensures IsBestBid(seen + [t], best)
  {
    var i :| 0 <= i < |seen| && seen[i] == best && best.bid > 0.0 && (forall j :: 0 <= j < |seen| ==> seen[j].bid <= best.bid)
             && (forall j :: 0 <= j < i ==> seen[j].bid < best.bid);
    assert (seen + [t])[i] == best;
  }

  lemma BestAreUnique(tickers: seq<Ticker>, b: Ticker, a: Ticker)
    requires IsBestBid(tickers, b) && IsBestAsk(tickers, a)
    ensures forall x :: IsBestBid(tickers, x) ==> x == b
    ensures forall x :: IsBestAsk(tickers, x) ==> x == a
  {
  }

  // ----- Pricing -----

  /** The weight of the ask side: its share of the daily and of the book volume, averaged. */
  function AskWeight(bidSide: Params, askSide: Params, bestBid: Ticker, bestAsk: Ticker): real
    requires askSide.dailyVolume + bidSide.dailyVolume != 0.0 && bestBid.bidVolume + bestAsk.askVolume != 0.0
  {
    (askSide.dailyVolume / (askSide.dailyVolume + bidSide.dailyVolume)
     + bestAsk.askVolume / (bestBid.bidVolume + bestAsk.askVolume)) / 2.0
  }

  function BidWeight(bidSide: Params, askSide: Params, bestBid: Ticker, bestAsk: Ticker): real
    requires askSide.dailyVolume + bidSide.dailyVolume != 0.0 && bestBid.bidVolume + bestAsk.askVolume != 0.0
  {
    (bidSide.dailyVolume / (askSide.dailyVolume + bidSide.dailyVolume)
     + bestBid.bidVolume / (bestBid.bidVolume + bestAsk.askVolume)) / 2.0
  }

  /** The part of a sum received that selling leaves, and the part of a sum that buying costs. */
  function SellPart(bidSide: Params): real { 1.0 - bidSide.fee }

  function BuyPart(askSide: Params): real { 1.0 + askSide.fee }

  function CalculatePrices(bidSide: Params, askSide: Params, bestBid: Ticker, bestAsk: Ticker): Prices
    requires askSide.dailyVolume + bidSide.dailyVolume != 0.0 && bestBid.bidVolume + bestAsk.askVolume != 0.0
    requires SellPart(bidSide) != 0.0 && BuyPart(askSide) != 0.0
  {
    var maxBuy := (SellPart(bidSide) / BuyPart(askSide)) * bestBid.bid;
    var minSell := (BuyPart(askSide) / SellPart(bidSide)) * bestAsk.ask;
    var askWeight, bidWeight := AskWeight(bidSide, askSide, bestBid, bestAsk), BidWeight(bidSide, askSide, bestBid, bestAsk);
    Prices(bestBid.bid * bidWeight + minSell * askWeight, bestAsk.ask * askWeight + maxBuy * bidWeight)
  }

  ghost predicate Sane(bidSide: Params, askSide: Params, bestBid: Ticker, bestAsk: Ticker)
  {
    && bidSide.fee >= 0.0 && askSide.fee >= 0.0 && bidSide.fee < 1.0
    && bidSide.slippage >= 0.0 && askSide.slippage >= 0.0
    && bidSide.dailyVolume > 0.0 && askSide.dailyVolume > 0.0
    && bestBid.bid > 0.0 && bestAsk.ask > 0.0 && bestBid.bidVolume > 0.0 && bestAsk.askVolume > 0.0
  }

  lemma Share(x: real, y: real)
    requires x > 0.0 && y > 0.0
    ensures 0.0 < x / (x + y) < 1.0 && x / (x + y) + y / (x + y) == 1.0
  {
  }

  lemma WeightsShare(bidSide: Params, askSide: Params, bestBid: Ticker, bestAsk: Ticker)
    requires Sane(bidSide, askSide, bestBid, bestAsk)
    ensures var a, b := AskWeight(bidSide, askSide, bestBid, bestAsk), BidWeight(bidSide, askSide, bestBid, bestAsk);
            0.0 < a < 1.0 && a + b == 1.0
  {
    Share(askSide.dailyVolume, bidSide.dailyVolume);
    Share(bestAsk.askVolume, bestBid.bidVolume);
  }

  lemma Products(x: real, y: real)
    requires x >= 0.0 && y >= 0.0
    ensures x * y >= 0.0
    ensures x > 0.0 && y > 0.0 ==> x * y > 0.0
  {
  }

  lemma Quotient(x: real, k: real)
    requires k != 0.0
    ensures (x / k) * k == x
  {
  }

  lemma Differences(x: real, y: real, k: real)
    ensures (y - x) * k == y * k - x * k
  {
  }

  /** A proper average of two numbers lies between them exactly if the first is the lower one. */
  lemma AverageBetween(x: real, y: real, w: real, v: real)
    requires 0.0 < w < 1.0 && w + v == 1.0
    ensures x <= y <==> x <= x * w + y * v <= y
  {
    assert x * w == x - x * v by { Differences(v, 1.0, x); }
    assert y * v == y - y * w by { Differences(w, 1.0, y); }
    Differences(x, y, v);
    Differences(x, y, w);
    if x <= y {
      Products(y - x, v);
      Products(y - x, w);
    } else {
      Differences(y, x, v);
      Products(x - y, v);
    }
  }

  lemma Scaled(num: real, den: real, x: real)
    requires den != 0.0
    ensures ((num / den) * x) * den == num * x
  {
  }

  lemma ScaledOrder(x: real, y: real, k: real)
    requires k > 0.0
    ensures x <= y <==> x * k <= y * k
  {
    Differences(x, y, k);
    Differences(y, x, k);
    if x <= y { Products(y - x, k); } else { Products(x - y, k); }
  }

  /** What selling brings in and what buying takes are the same at the computed prices. */
  lemma PricesBreakEven(bidSide: Params, askSide: Params, bestBid: Ticker, bestAsk: Ticker)
    requires Sane(bidSide, askSide, bestBid, bestAsk)
    ensures var p := CalculatePrices(bidSide, askSide, bestBid, bestAsk);
            SellPart(bidSide) * p.sell == BuyPart(askSide) * p.buy
  {
  }

  /** The pair pays for its fees: selling one unit at the bid covers buying it at the ask. */
  ghost predicate Covers(bidSide: Params, askSide: Params, bestBid: Ticker, bestAsk: Ticker)
  {
    BuyPart(askSide) * bestAsk.ask <= SellPart(bidSide) * bestBid.bid
  }

  lemma BuyBetween(s: real, b: real, bid: real, ask: real, maxBuy: real, aw: real, bw: real)
    requires b > 0.0 && maxBuy * b == s * bid && 0.0 < aw < 1.0 && aw + bw == 1.0
    ensures b * ask <= s * bid <==> ask <= ask * aw + maxBuy * bw <= maxBuy
  {
    ScaledOrder(ask, maxBuy, b);
    AverageBetween(ask, maxBuy, aw, bw);
  }

  lemma SellBetween(s: real, b: real, bid: real, ask: real, minSell: real, aw: real, bw: real)
    requires s > 0.0 && minSell * s == b * ask && 0.0 < aw < 1.0 && aw + bw == 1.0
    ensures b * ask <= s * bid <==> minSell <= bid * bw + minSell * aw <= bid
  {
    ScaledOrder(minSell, bid, s);
    AverageBetween(minSell, bid, aw, bw);
  }

  lemma BuyWithinIff(bidSide: Params, askSide: Params, bestBid: Ticker, bestAsk: Ticker)
    requires Sane(bidSide, askSide, bestBid, bestAsk)
    ensures Covers(bidSide, askSide, bestBid, bestAsk)
            <==> bestAsk.ask <= CalculatePrices(bidSide, askSide, bestBid, bestAsk).buy
                 <= (SellPart(bidSide) / BuyPart(askSide)) * bestBid.bid
  {
    var s, b := SellPart(bidSide), BuyPart(askSide);
    var aw, bw := AskWeight(bidSide, askSide, bestBid, bestAsk), BidWeight(bidSide, askSide, bestBid, bestAsk);
    WeightsShare(bidSide, askSide, bestBid, bestAsk);
    Scaled(s, b, bestBid.bid);
    BuyBetween(s, b, bestBid.bid, bestAsk.ask, (s / b) * bestBid.bid, aw, bw);
  }

  lemma SellWithinIff(bidSide: Params, askSide: Params, bestBid: Ticker, bestAsk: Ticker)
    requires Sane(bidSide, askSide, bestBid, bestAsk)
    ensures Covers(bidSide, askSide, bestBid, bestAsk)
            <==> (BuyPart(askSide) / SellPart(bidSide)) * bestAsk.ask
                 <= CalculatePrices(bidSide, askSide, bestBid, bestAsk).sell <= bestBid.bid
  {
    var s, b := SellPart(bidSide), BuyPart(askSide);
    var aw, bw := AskWeight(bidSide, askSide, bestBid, bestAsk), BidWeight(bidSide, askSide, bestBid, bestAsk);
    WeightsShare(bidSide, askSide, bestBid, bestAsk);
    Scaled(b, s, bestAsk.ask);
    SellBetween(s, b, bestBid.bid, bestAsk.ask, (b / s) * bestAsk.ask, aw, bw);
  }

  lemma OffsetOfAverage(x: real, y: real, w: real, v: real)
    requires w + v == 1.0
    ensures x * w + y * v - x == (y - x) * v
  {
    assert x * w == x - x * v by { Differences(v, 1.0, x); }
    Differences(x, y, v);
  }

  /** How far each price moves from the quote of its exchange, or the price of no profit, towards
      the other end is the bid side's part: the average of its shares of the daily volume and of
      the volume in the book. */
  lemma PricesByVolume(bidSide: Params, askSide: Params, bestBid: Ticker, bestAsk: Ticker)
    requires Sane(bidSide, askSide, bestBid, bestAsk)
    ensures var p, s, b := CalculatePrices(bidSide, askSide, bestBid, bestAsk), SellPart(bidSide), BuyPart(askSide);
            var maxBuy, minSell := (s / b) * bestBid.bid, (b / s) * bestAsk.ask;
            var part := (bidSide.dailyVolume / (askSide.dailyVolume + bidSide.dailyVolume)
                         + bestBid.bidVolume / (bestBid.bidVolume + bestAsk.askVolume)) / 2.0;
            && 0.0 < part < 1.0
            && p.buy - bestAsk.ask == (maxBuy - bestAsk.ask) * part
            && p.sell - minSell == (bestBid.bid - minSell) * part
  {
    var aw, bw := AskWeight(bidSide, askSide, bestBid, bestAsk), BidWeight(bidSide, askSide, bestBid, bestAsk);
    var s, b := SellPart(bidSide), BuyPart(askSide);
    WeightsShare(bidSide, askSide, bestBid, bestAsk);
    OffsetOfAverage(bestAsk.ask, (s / b) * bestBid.bid, aw, bw);
    OffsetOfAverage((b / s) * bestAsk.ask, bestBid.bid, aw, bw);
  }

  /** The prices lie between the quote and the price of no profit, on both sides, exactly for the
      pairs that pay for their fees. */
  lemma PricesWithinIff(bidSide: Params, askSide: Params, bestBid: Ticker, bestAsk: Ticker)
    requires Sane(bidSide, askSide, bestBid, bestAsk)
    ensures var p, s, b := CalculatePrices(bidSide, askSide, bestBid, bestAsk), SellPart(bidSide), BuyPart(askSide);
            && (Covers(bidSide, askSide, bestBid, bestAsk) <==> bestAsk.ask <= p.buy <= (s / b) * bestBid.bid)
            && (Covers(bidSide, askSide, bestBid, bestAsk) <==> (b / s) * bestAsk.ask <= p.sell <= bestBid.bid)
  {
    BuyWithinIff(bidSide, askSide, bestBid, bestAsk);
    SellWithinIff(bidSide, askSide, bestBid, bestAsk);
  }

  /** Every match pays for its fees. */
  lemma MatchCovers(params: map<string, Params>, margin: real, m: Match)
    requires m.bestBid.exchange in params && m.bestAsk.exchange in params
    requires var bidSide, askSide := params[m.bestBid.exchange], params[m.bestAsk.exchange];
             Sane(bidSide, askSide, m.bestBid, m.bestAsk) && margin >= 0.0 && bidSide.fee + margin <= 1.0
    requires m.profit == Surplus(params, margin, m.bestBid, m.bestAsk) && m.profit >= 0.0
    ensures Covers(params[m.bestBid.exchange], params[m.bestAsk.exchange], m.bestBid, m.bestAsk)
  {
    var bidSide, askSide := params[m.bestBid.exchange], params[m.bestAsk.exchange];
    ProfitIsSurplus(params, margin, m.bestBid, m.bestAsk);
    CoversByMargin(bidSide.fee, askSide.fee, margin, m.bestBid.bid, m.bestAsk.ask, bidSide.slippage, askSide.slippage);
  }

  lemma CoversByMargin(bidFee: real, askFee: real, margin: real, bid: real, ask: real, bidSlip: real, askSlip: real)
    requires bidFee >= 0.0 && askFee >= 0.0 && margin >= 0.0 && bidFee + margin <= 1.0
    requires bid > 0.0 && ask > 0.0 && bidSlip >= 0.0 && askSlip >= 0.0
    requires (1.0 - bidFee - margin) * (bid - bidSlip) - (1.0 + askFee + margin) * (ask + askSlip) >= 0.0
    ensures (1.0 + askFee) * ask <= (1.0 - bidFee) * bid
  {
    var s, b := 1.0 - bidFee - margin, 1.0 + askFee + margin;
    Products(s, bidSlip);
    Products(b, askSlip);
    Products(margin, bid);
    Products(margin, ask);
    assert s * (bid - bidSlip) == s * bid - s * bidSlip;
    assert b * (ask + askSlip) == b * ask + b * askSlip;
    assert (1.0 - bidFee) * bid == s * bid + margin * bid;
    assert b * ask == (1.0 + askFee) * ask + margin * ask;
  }

  /** The prices for a match: neither leg is asked to trade at a loss, both may trade at the quote
      or better, and at the prices themselves the two legs balance. */
  lemma MatchedPricesSafe(params: map<string, Params>, margin: real, m: Match)
    requires m.bestBid.exchange in params && m.bestAsk.exchange in params
    requires var bidSide, askSide := params[m.bestBid.exchange], params[m.bestAsk.exchange];
             Sane(bidSide, askSide, m.bestBid, m.bestAsk) && margin >= 0.0 && bidSide.fee + margin <= 1.0
    requires m.profit == Surplus(params, margin, m.bestBid, m.bestAsk) && m.profit >= 0.0
    ensures var bidSide, askSide := params[m.bestBid.exchange], params[m.bestAsk.exchange];
            var p, s, b := CalculatePrices(bidSide, askSide, m.bestBid, m.bestAsk), SellPart(bidSide), BuyPart(askSide);
            && m.bestAsk.ask <= p.buy <= (s / b) * m.bestBid.bid
            && (b / s) * m.bestAsk.ask <= p.sell <= m.bestBid.bid
            && s * p.sell == b * p.buy
  {
    var bidSide, askSide := params[m.bestBid.exchange], params[m.bestAsk.exchange];
    MatchCovers(params, margin, m);
    PricesWithinIff(bidSide, askSide, m.bestBid, m.bestAsk);
    PricesBreakEven(bidSide, askSide, m.bestBid, m.bestAsk);
  }

  /** Both legs, filled at their limits or better by `more` and `less`, never lose. */
  lemma NeverLoses(bidSide: Params, askSide: Params, bestBid: Ticker, bestAsk: Ticker, quantity: real, more: real, less: real)
    requires Sane(bidSide, askSide, bestBid, bestAsk) && quantity >= 0.0 && more >= 0.0 && less >= 0.0
    ensures var p := CalculatePrices(bidSide, askSide, bestBid, bestAsk);
            SellPart(bidSide) * (p.sell + more) * quantity - BuyPart(askSide) * (p.buy - less) * quantity >= 0.0
  {
    var p := CalculatePrices(bidSide, askSide, bestBid, bestAsk);
    PricesBreakEven(bidSide, askSide, bestBid, bestAsk);
    NoLoss(SellPart(bidSide), BuyPart(askSide), p.sell, p.buy, p.sell + more, p.buy - less, quantity);
  }

  lemma NoLoss(s: real, b: real, sell: real, buy: real, soldAt: real, boughtAt: real, quantity: real)
    requires s > 0.0 && b > 0.0 && quantity >= 0.0 && s * sell == b * buy && soldAt >= sell && boughtAt <= buy
    ensures s * soldAt * quantity - b * boughtAt * quantity >= 0.0
  {
  }

  // ----- Quantity -----

  function MinReal(x: real, y: real): real { if x < y then x else y }

  function CalculateQuantity(bestBid: Ticker, bestAsk: Ticker, baseBalance: real, quoteBalance: real): real
    requires bestAsk.ask > 0.0
  {
    var baseVolume := 0.3 * MinReal(bestBid.bidVolume, bestAsk.askVolume);
    var tradableBase, tradableQuote := 0.9 * baseBalance, 0.9 * quoteBalance;
    var quoteVolume := MinReal(baseVolume * bestAsk.ask, tradableQuote);
    MinReal(MinReal(baseVolume, quoteVolume / bestAsk.ask), tradableBase)
  }

  /** Within 30% of both book volumes, 90% of the base balance, and 90% of the quote balance at the ask. */
  ghost predicate Tradable(bestBid: Ticker, bestAsk: Ticker, baseBalance: real, quoteBalance: real, quantity: real)
  {
    && quantity <= 0.3 * bestBid.bidVolume && quantity <= 0.3 * bestAsk.askVolume
    && quantity <= 0.9 * baseBalance && quantity * bestAsk.ask <= 0.9 * quoteBalance
  }

  lemma QuoteLimit(quantity: real, baseVolume: real, ask: real, tradableQuote: real, limit: real)
    requires ask > 0.0 && limit * ask == MinReal(baseVolume * ask, tradableQuote)
    ensures quantity <= limit <==> quantity <= baseVolume && quantity * ask <= tradableQuote
  {
    var spent, limitSpent, baseSpent := quantity * ask, limit * ask, baseVolume * ask;
    SameOrder(quantity, limit, ask, spent, limitSpent);
    SameOrder(quantity, baseVolume, ask, spent, baseSpent);
    assert limitSpent == MinReal(baseSpent, tradableQuote);
  }

  lemma SameOrder(x: real, y: real, k: real, xk: real, yk: real)
    requires k > 0.0 && xk == x * k && yk == y * k
    ensures x <= y <==> xk <= yk
  {
    ScaledOrder(x, y, k);
  }

  /** The quantities within the limits are exactly those up to the computed one. */
  lemma QuantityIsLargest(bestBid: Ticker, bestAsk: Ticker, baseBalance: real, quoteBalance: real, quantity: real)
    requires bestAsk.ask > 0.0
    ensures Tradable(bestBid, bestAsk, baseBalance, quoteBalance, quantity)
            <==> quantity <= CalculateQuantity(bestBid, bestAsk, baseBalance, quoteBalance)
  {
    var baseVolume := 0.3 * MinReal(bestBid.bidVolume, bestAsk.askVolume);
    var quoteVolume := MinReal(baseVolume * bestAsk.ask, 0.9 * quoteBalance);
    Quotient(quoteVolume, bestAsk.ask);
    QuoteLimit(quantity, baseVolume, bestAsk.ask, 0.9 * quoteBalance, quoteVolume / bestAsk.ask);
  }

  function BuyOrder(bestAsk: Ticker, quantity: real, prices: Prices): Order
  {
    Order("", bestAsk.symbol, Buy, quantity, prices.buy, UnknownStatus, 0.0, 0.0)
  }

  lemma BuyPriceBound(bidSide: Params, askSide: Params, bestBid: Ticker, bestAsk: Ticker)
    requires Sane(bidSide, askSide, bestBid, bestAsk) && Covers(bidSide, askSide, bestBid, bestAsk)
    requires 9.0 * (SellPart(bidSide) * bestBid.bid) <= 10.0 * (BuyPart(askSide) * bestAsk.ask)
    ensures 9.0 * CalculatePrices(bidSide, askSide, bestBid, bestAsk).buy <= 10.0 * bestAsk.ask
  {
    var s, b := SellPart(bidSide), BuyPart(askSide);
    PricesWithinIff(bidSide, askSide, bestBid, bestAsk);
    Scaled(s, b, bestBid.bid);
    NinthAbove(s, b, bestBid.bid, bestAsk.ask, (s / b) * bestBid.bid);
  }

  /** The reservation for any tradable quantity is in the quote balance, if the best bid exceeds
      the best ask by no more than a ninth, fees included. */
  lemma TradableAffordable(bidSide: Params, askSide: Params, bestBid: Ticker, bestAsk: Ticker, quantity: real, quoteBalance: real)
    requires Sane(bidSide, askSide, bestBid, bestAsk) && Covers(bidSide, askSide, bestBid, bestAsk)
    requires quantity >= 0.0 && quantity * bestAsk.ask <= 0.9 * quoteBalance
    requires 9.0 * (SellPart(bidSide) * bestBid.bid) <= 10.0 * (BuyPart(askSide) * bestAsk.ask)
    ensures Ledgers.LockAmount(BuyOrder(bestAsk, quantity, CalculatePrices(bidSide, askSide, bestBid, bestAsk))) <= quoteBalance
  {
    BuyPriceBound(bidSide, askSide, bestBid, bestAsk);
    LegAffordable(bestAsk, quantity, CalculatePrices(bidSide, askSide, bestBid, bestAsk), quoteBalance);
  }

  /** What the account manager reserves for the buy leg of the computed orders is in the quote
      balance, under the same condition. */
  lemma BuyLegAffordable(bidSide: Params, askSide: Params, bestBid: Ticker, bestAsk: Ticker,
                         baseBalance: real, quoteBalance: real)
    requires Sane(bidSide, askSide, bestBid, bestAsk) && Covers(bidSide, askSide, bestBid, bestAsk)
    requires baseBalance >= 0.0 && quoteBalance >= 0.0
    requires 9.0 * (SellPart(bidSide) * bestBid.bid) <= 10.0 * (BuyPart(askSide) * bestAsk.ask)
    ensures var quantity := CalculateQuantity(bestBid, bestAsk, baseBalance, quoteBalance);
            Ledgers.LockAmount(BuyOrder(bestAsk, quantity, CalculatePrices(bidSide, askSide, bestBid, bestAsk))) <= quoteBalance
  {
    var quantity := CalculateQuantity(bestBid, bestAsk, baseBalance, quoteBalance);
    QuantityBounds(bestBid, bestAsk, baseBalance, quoteBalance);
    TradableAffordable(bidSide, askSide, bestBid, bestAsk, quantity, quoteBalance);
  }

  lemma QuantityBounds(bestBid: Ticker, bestAsk: Ticker, baseBalance: real, quoteBalance: real)
    requires bestAsk.ask > 0.0 && bestBid.bidVolume > 0.0 && bestAsk.askVolume > 0.0 && baseBalance >= 0.0 && quoteBalance >= 0.0
    ensures var quantity := CalculateQuantity(bestBid, bestAsk, baseBalance, quoteBalance);
            quantity >= 0.0 && quantity * bestAsk.ask <= 0.9 * quoteBalance
  {
  }

  lemma LegAffordable(bestAsk: Ticker, quantity: real, prices: Prices, quoteBalance: real)
    requires quantity >= 0.0 && 9.0 * prices.buy <= 10.0 * bestAsk.ask && quantity * bestAsk.ask <= 0.9 * quoteBalance
    ensures Ledgers.LockAmount(BuyOrder(bestAsk, quantity, prices)) <= quoteBalance
  {
  }

  lemma NinthAbove(s: real, b: real, bid: real, ask: real, maxBuy: real)
    requires b > 0.0 && maxBuy * b == s * bid && 9.0 * (s * bid) <= 10.0 * (b * ask)
    ensures 9.0 * maxBuy <= 10.0 * ask
  {
  }

  /** When the quote balance is what limits the quantity, the reservation fits exactly if the buy
      price is at most ten ninths of the ask. */
  lemma AffordableIff(bestBid: Ticker, bestAsk: Ticker, baseBalance: real, quoteBalance: real, prices: Prices)
    requires bestAsk.ask > 0.0 && quoteBalance > 0.0
    requires CalculateQuantity(bestBid, bestAsk, baseBalance, quoteBalance) * bestAsk.ask == 0.9 * quoteBalance
    ensures var quantity := CalculateQuantity(bestBid, bestAsk, baseBalance, quoteBalance);
            Ledgers.LockAmount(BuyOrder(bestAsk, quantity, prices)) <= quoteBalance <==> 9.0 * prices.buy <= 10.0 * bestAsk.ask
  {
  }
}
