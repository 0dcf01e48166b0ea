/** What the simulator's fills are worth, over whole runs. */
module FillPrices {
  import opened Wrappers
  import opened AccountBalances
  import opened Simulations

  /** The fill moved the amounts that belong to its kind of trade at its quote, and the trade was
      due: a crossing limit order on arrival, or a resting one the quote had reached. */
  ghost predicate Priced(cfg: Settings, f: Fill)
  {
    match f.trade
    case MarketTrade(_, quote, _) =>
      quote.symbol == f.order.symbol && quote.symbol.Pair? && f == MarketFill(cfg, f.order, quote, f.trade)
    case ArrivalTrade(_, t) =>
      t.symbol == f.order.symbol && t.symbol.Pair? && Crosses(f.order, t) && f == MarketFill(cfg, f.order, t, f.trade)
    case RestingTrade(t) => t.symbol.Pair? && Reached(f.order, t) && f == RestingFill(cfg, f.order, t)
  }

  ghost predicate AllPriced(cfg: Settings, acc: Account)
  {
    forall f :: f in acc.fills ==> Priced(cfg, f)
  }

  lemma {:induction false} MarketPassPriced(cfg: Settings, queue: seq<Request>, acc: Account, last: Option<Ticker>, t: Ticker)
    requires last.Some? ==> last.value.symbol.Pair? && last.value.symbol == t.symbol
    requires AllPriced(cfg, acc)
    ensures AllPriced(cfg, MarketPass(cfg, queue, acc, last, t).1)
  {
    if queue != [] {
      if Due(cfg, queue[0], t) && last.Some? {
        var fill := MarketFill(cfg, queue[0].order, last.value, MarketTrade(queue[0].created, last.value, t));
        MarketPassPriced(cfg, queue[1..], Book(acc, fill), last, t);
      } else {
        MarketPassPriced(cfg, queue[1..], acc, last, t);
      }
    }
  }

  lemma {:induction false} ArrivalPassPriced(cfg: Settings, queue: seq<Request>, resting: seq<Order>, acc: Account, t: Ticker)
    requires t.symbol.Pair? && AllPriced(cfg, acc)
    ensures AllPriced(cfg, ArrivalPass(cfg, queue, resting, acc, t).2)
  {
    if queue != [] {
      if !Due(cfg, queue[0], t) {
        ArrivalPassPriced(cfg, queue[1..], resting, acc, t);
      } else if Crosses(queue[0].order, t) {
        var fill := MarketFill(cfg, queue[0].order, t, ArrivalTrade(queue[0].created, t));
        ArrivalPassPriced(cfg, queue[1..], resting, Book(acc, fill), t);
      } else {
        ArrivalPassPriced(cfg, queue[1..], resting + [queue[0].order], acc, t);
      }
    }
  }

  lemma {:induction false} RestingPassPriced(cfg: Settings, queue: seq<Order>, acc: Account, t: Ticker, behindFill: bool)
    requires t.symbol.Pair? && AllPriced(cfg, acc)
    ensures AllPriced(cfg, RestingPass(cfg, queue, acc, t, behindFill).1)
  {
    if queue != [] {
      if Reached(queue[0], t) && !behindFill {
        RestingPassPriced(cfg, queue[1..], Book(acc, RestingFill(cfg, queue[0], t)), t, true);
      } else {
        RestingPassPriced(cfg, queue[1..], acc, t, false);
      }
    }
  }

  lemma TickPriced(cfg: Settings, s: Sim, t: Ticker)
    requires Valid(s) && Readable(cfg, t) && AllPriced(cfg, s.account)
    ensures AllPriced(cfg, OnBookTicker(cfg, s, t).account)
  {
    if cfg.exchange == t.exchange {
      var (market, acc1) := MarketPass(cfg, s.pendingMarket, s.account, Known(s, t.symbol), t);
      MarketPassPriced(cfg, s.pendingMarket, s.account, Known(s, t.symbol), t);
      var (arriving, resting, acc2) := ArrivalPass(cfg, s.pendingLimit, s.resting, acc1, t);
      ArrivalPassPriced(cfg, s.pendingLimit, s.resting, acc1, t);
      RestingPassPriced(cfg, resting, acc2, t, false);
    }
  }

  /** Over every run, each fill is priced by its own quote: market orders and limit orders that
      cross on arrival with slippage, resting orders without. */
  lemma {:induction false} EveryFillPriced(cfg: Settings, acts: seq<Action>)
    requires AllLegal(cfg, acts)
    ensures AllPriced(cfg, Run(cfg, acts).account)
  {
    if acts != [] {
      var front, act := acts[..|acts| - 1], acts[|acts| - 1];
      EveryFillPriced(cfg, front);
      if act.Tick? {
        TickPriced(cfg, Run(cfg, front), act.ticker);
      }
    }
  }

  /** What a fill moves, in the terms of the order, the quote, the slippage and the fee. */
  ghost predicate Moves(cfg: Settings, f: Fill)
  {
    var o := f.order;
    && o.symbol == Pair(f.base, f.quote)
    && f.baseDelta == (if o.side.Sell? then -o.quantity else o.quantity)
    && match f.trade
       case MarketTrade(_, quote, _) => f.quoteDelta == TakerDelta(o, quote.bid, quote.ask, cfg.slippage, cfg.fee)
       case ArrivalTrade(_, t) => f.quoteDelta == TakerDelta(o, t.bid, t.ask, cfg.slippage, cfg.fee)
       case RestingTrade(t) => f.quoteDelta == TakerDelta(o, t.bid, t.ask, 0.0, cfg.fee)
  }

  /** The quote asset a sale brings at the bid less the slippage, or a purchase takes at the ask
      plus the slippage, after the fee. */
  function TakerDelta(o: Order, bid: real, ask: real, slippage: real, fee: real): real
  {
    match o.side
    case Sell => (bid - slippage) * o.quantity - fee * ((bid - slippage) * o.quantity)
    case Buy => -((ask + slippage) * o.quantity + fee * ((ask + slippage) * o.quantity))
  }

  lemma Share(x: real, q: real, k: real)
    ensures q * x * (1.0 - k) == x * q - k * (x * q) && q * x * (1.0 + k) == x * q + k * (x * q)
    ensures x * q * (1.0 - k) == x * q - k * (x * q) && x * q * (1.0 + k) == x * q + k * (x * q)
  {
    assert q * x == x * q;
  }

  lemma PricedMoves(cfg: Settings, f: Fill)
    requires Priced(cfg, f)
    ensures Moves(cfg, f)
  {
    var t := match f.trade case MarketTrade(_, quote, _) => quote case ArrivalTrade(_, t) => t case RestingTrade(t) => t;
    var slippage := if f.trade.RestingTrade? then 0.0 else cfg.slippage;
    Share(t.bid - slippage, f.order.quantity, cfg.fee);
    Share(t.ask + slippage, f.order.quantity, cfg.fee);
  }

  /** Over every run each fill moves the order's quantity of the base asset, and of the quote asset
      what the quote it filled at comes to, with slippage for market orders and limit orders that
      trade on arrival and without for resting ones, after the fee. */
  lemma EveryFillMoves(cfg: Settings, acts: seq<Action>, f: Fill)
    requires AllLegal(cfg, acts) && f in Run(cfg, acts).account.fills
    ensures Moves(cfg, f)
  {
    EveryFillPriced(cfg, acts);
    PricedMoves(cfg, f);
  }

  /** A resting order is reached exactly if filling it at the quote is no worse than at its limit. */
  lemma ReachedIff(cfg: Settings, o: Order, t: Ticker)
    requires o.symbol == t.symbol && t.symbol.Pair? && o.quantity > 0.0 && 0.0 <= cfg.fee < 1.0
    ensures Reached(o, t) <==> RestingFill(cfg, o, t).quoteDelta >= AtLimitDelta(cfg, o, t)
  {
    var q := o.quantity;
    if o.side.Sell? {
      StrictlyScaled(o.price, t.bid, q);
      StrictlyScaled(o.price * q, t.bid * q, 1.0 - cfg.fee);
    } else {
      StrictlyScaled(t.ask, o.price, q);
      StrictlyScaled(t.ask * q, o.price * q, 1.0 + cfg.fee);
    }
  }

  lemma Scaled(x: real, y: real, k: real)
    requires x <= y && k >= 0.0
    ensures x * k <= y * k
  {
  }

  lemma ScaledTwice(x: real, y: real, q: real, k: real)
    requires x <= y && q >= 0.0 && k >= 0.0
    ensures x * q * k <= y * q * k
  {
    Scaled(x, y, q);
    Scaled(x * q, y * q, k);
  }

  /** The limit price as a quote. */
  function AtLimit(o: Order, t: Ticker): Ticker
  {
    t.(bid := o.price, ask := o.price)
  }

  lemma ReachedAtLimit(cfg: Settings, o: Order, t: Ticker)
    requires Reached(o, t) && o.quantity >= 0.0 && 0.0 <= cfg.fee <= 1.0
    ensures o.side.Sell? ==> RestingProceeds(cfg, o.quantity, t) >= RestingProceeds(cfg, o.quantity, AtLimit(o, t))
    ensures o.side.Buy? ==> RestingCost(cfg, o.quantity, t) <= RestingCost(cfg, o.quantity, AtLimit(o, t))
  {
    if o.side.Sell? {
      ScaledTwice(o.price, t.bid, o.quantity, 1.0 - cfg.fee);
    } else {
      ScaledTwice(t.ask, o.price, o.quantity, 1.0 + cfg.fee);
    }
  }

  /** What the fill of `o` would move of the quote asset at its limit price, fee included. */
  function AtLimitDelta(cfg: Settings, o: Order, t: Ticker): real
  {
    if o.side.Sell? then RestingProceeds(cfg, o.quantity, AtLimit(o, t))
    else -RestingCost(cfg, o.quantity, AtLimit(o, t))
  }

  /** A resting order never fills worse than at its limit price, fee included. */
  lemma RestingAtLimitOrBetter(cfg: Settings, acts: seq<Action>, f: Fill)
    requires AllLegal(cfg, acts)
    requires f in Run(cfg, acts).account.fills && f.trade.RestingTrade?
    requires f.order.quantity >= 0.0 && 0.0 <= cfg.fee <= 1.0
    ensures f.quoteDelta >= AtLimitDelta(cfg, f.order, f.trade.ticker)
  {
    EveryFillPriced(cfg, acts);
    assert Priced(cfg, f);
    ReachedAtLimit(cfg, f.order, f.trade.ticker);
  }

  lemma StrictlyScaled(x: real, y: real, k: real)
    requires k > 0.0
    ensures x <= y <==> x * k <= y * k
  {
  }

  lemma StrictlyScaledTwice(x: real, y: real, q: real, k: real)
    requires q > 0.0 && k > 0.0
    ensures x <= y <==> x * q * k <= q * y * k
  {
    StrictlyScaled(x, y, q);
    StrictlyScaled(x * q, y * q, k);
    assert q * y == y * q;
  }

  lemma SaleAtLimitIff(cfg: Settings, o: Order, t: Ticker)
    requires o.side.Sell? && o.quantity > 0.0 && cfg.fee < 1.0
    ensures SaleProceeds(cfg, o.quantity, t) >= AtLimitDelta(cfg, o, t) <==> o.price <= t.bid - cfg.slippage
  {
    var net, k := t.bid - cfg.slippage, 1.0 - cfg.fee;
    StrictlyScaledTwice(o.price, net, o.quantity, k);
    assert SaleProceeds(cfg, o.quantity, t) == o.quantity * net * k;
    assert AtLimitDelta(cfg, o, t) == o.price * o.quantity * k;
  }

  lemma PurchaseAtLimitIff(cfg: Settings, o: Order, t: Ticker)
    requires !o.side.Sell? && o.quantity > 0.0 && cfg.fee >= 0.0
    ensures -PurchaseCost(cfg, o.quantity, t) >= AtLimitDelta(cfg, o, t) <==> t.ask + cfg.slippage <= o.price
  {
    var paid, k := t.ask + cfg.slippage, 1.0 + cfg.fee;
    StrictlyScaledTwice(paid, o.price, o.quantity, k);
    assert paid * o.quantity == o.quantity * paid && o.quantity * o.price == o.price * o.quantity;
  }

  /** Over every run: a limit order that trades on arrival does no worse than its limit, exactly
      if the quote including slippage has reached the limit, on either side of the book. That it
      crossed the mid price, which is why it traded, is not enough. */
  lemma ArrivalAtLimitIff(cfg: Settings, acts: seq<Action>, f: Fill)
    requires AllLegal(cfg, acts)
    requires f in Run(cfg, acts).account.fills && f.trade.ArrivalTrade?
    requires f.order.quantity > 0.0 && 0.0 <= cfg.fee && (f.order.side.Sell? ==> cfg.fee < 1.0)
    ensures var o, t := f.order, f.trade.ticker;
            f.quoteDelta >= AtLimitDelta(cfg, o, t)
            <==> if o.side.Sell? then o.price <= t.bid - cfg.slippage else t.ask + cfg.slippage <= o.price
  {
    EveryFillPriced(cfg, acts);
    assert Priced(cfg, f);
    if f.order.side.Sell? {
      SaleAtLimitIff(cfg, f.order, f.trade.ticker);
    } else {
      PurchaseAtLimitIff(cfg, f.order, f.trade.ticker);
    }
  }

  // ----- A run in which both sides miss their limits -----

  const FREE := Settings("x", 0.0, 0.0, 0.0, 0.0, map["A" := 1.0, "B" := 10.0])
  const WIDE := Ticker("x", Pair("A", "B"), 9.0, 11.0, 5)

  function TwoOrders(): seq<Action>
  {
    [Limit(Pair("A", "B"), Sell, 1.0, 10.0), Limit(Pair("A", "B"), Buy, 1.0, 10.0)]
  }

  function SaleAtTen(): Order { NewOrder(1, Pair("A", "B"), Sell, 1.0, 10.0, New) }

  function PurchaseAtTen(): Order { NewOrder(2, Pair("A", "B"), Buy, 1.0, 10.0, New) }

  function FillAtWide(o: Order): Fill { MarketFill(FREE, o, WIDE, ArrivalTrade(0, WIDE)) }

  /** Both orders are accepted and wait. */
  lemma TwoOrdersWait()
    ensures var s := Run(FREE, TwoOrders());
            && s.account.fills == [] && s.resting == [] && s.pendingMarket == []
            && s.pendingLimit == [Request(SaleAtTen(), 0), Request(PurchaseAtTen(), 0)]
  {
    var acts := TwoOrders();
    assert acts[..1] == [acts[0]] && [acts[0]][..0] == [];
    assert Run(FREE, []) == Start(FREE);
    assert Run(FREE, acts[..1]) == PlaceLimit(Start(FREE), Pair("A", "B"), Sell, 1.0, 10.0);
    assert Run(FREE, acts) == PlaceLimit(Run(FREE, acts[..1]), Pair("A", "B"), Buy, 1.0, 10.0);
  }

  /** Two due orders that cross the mid price both fill, in their order. */
  lemma BothArrive(cfg: Settings, a: Request, b: Request, acc: Account, t: Ticker)
    requires t.symbol.Pair? && Due(cfg, a, t) && Due(cfg, b, t) && Crosses(a.order, t) && Crosses(b.order, t)
    ensures var acc1 := Book(acc, MarketFill(cfg, a.order, t, ArrivalTrade(a.created, t)));
            ArrivalPass(cfg, [a, b], [], acc, t) == ([], [], Book(acc1, MarketFill(cfg, b.order, t, ArrivalTrade(b.created, t))))
  {
    var acc1 := Book(acc, MarketFill(cfg, a.order, t, ArrivalTrade(a.created, t)));
    assert [a, b][1..] == [b] && [b][1..] == [];
    assert ArrivalPass(cfg, [b], [], acc1, t) == ([], [], Book(acc1, MarketFill(cfg, b.order, t, ArrivalTrade(b.created, t))));
  }

  lemma OnlyArrivals(cfg: Settings, s: Sim, t: Ticker)
    requires Valid(s) && t.symbol.Pair? && t.exchange == cfg.exchange && s.pendingMarket == []
    requires ArrivalPass(cfg, s.pendingLimit, s.resting, s.account, t).1 == []
    ensures OnBookTicker(cfg, s, t).account == ArrivalPass(cfg, s.pendingLimit, s.resting, s.account, t).2
  {
  }

  lemma TwoOrdersFill(s: Sim)
    requires Valid(s) && s.pendingMarket == [] && s.resting == [] && s.account.fills == []
    requires s.pendingLimit == [Request(SaleAtTen(), 0), Request(PurchaseAtTen(), 0)]
    ensures OnBookTicker(FREE, s, WIDE).account.fills == [FillAtWide(SaleAtTen()), FillAtWide(PurchaseAtTen())]
  {
    BothArrive(FREE, Request(SaleAtTen(), 0), Request(PurchaseAtTen(), 0), s.account, WIDE);
    OnlyArrivals(FREE, s, WIDE);
  }

  lemma TwoOrdersRun()
    ensures Run(FREE, TwoOrders() + [Tick(WIDE)]).account.fills == [FillAtWide(SaleAtTen()), FillAtWide(PurchaseAtTen())]
  {
    TwoOrdersWait();
    RunNext(FREE, TwoOrders(), Tick(WIDE));
    TwoOrdersFill(Run(FREE, TwoOrders()));
  }

  /** The amounts, for any account: a sale at 10 brings 9 and a purchase at 10 costs 11. */
  lemma WideAmounts(sale: Order, purchase: Order)
    requires sale.side.Sell? && purchase.side.Buy? && sale.quantity == purchase.quantity == 1.0
    ensures FillAtWide(sale).quoteDelta == 9.0 && FillAtWide(purchase).quoteDelta == -11.0
  {
  }

  /** A limit order that crosses the mid price on arrival trades at the quote, not at its limit:
      here a sale at 10 brings 9 and a purchase at 10 costs 11, on the same ticker. */
  lemma ArrivalMayMissLimit()
    ensures Run(FREE, TwoOrders() + [Tick(WIDE)]).account.fills == [FillAtWide(SaleAtTen()), FillAtWide(PurchaseAtTen())]
    ensures SaleAtTen().price == PurchaseAtTen().price == 10.0
    ensures FillAtWide(SaleAtTen()).quoteDelta == 9.0 && FillAtWide(PurchaseAtTen()).quoteDelta == -11.0
  {
    TwoOrdersRun();
    WideAmounts(SaleAtTen(), PurchaseAtTen());
  }
}
