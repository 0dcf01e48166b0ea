/** When the simulated account can be overdrawn. Funds are looked at once, when a limit order is
    placed; nothing is set aside for it, and market orders are not looked at at all. */
module Overdrafts {
  import opened Wrappers
  import opened AccountBalances
  import opened Simulations
  import FillPrices

  // ----- What an order can take -----

  /** The most that `o` takes of asset `a` if no unit of the base asset costs more than `unit`,
      before the fee. */
  function Claim(cfg: Settings, o: Order, unit: real, a: Asset): real
  {
    if o.symbol.Unknown? then 0.0
    else if o.side.Sell? then (if a == o.symbol.base then o.quantity else 0.0)
    else if a == o.symbol.quote then unit * o.quantity * (1.0 + cfg.fee)
    else 0.0
  }

  /** A market purchase pays the ask and the slippage; `cap` bounds the ask. */
  function MarketClaim(cfg: Settings, cap: real, o: Order, a: Asset): real
  {
    Claim(cfg, o, cap + cfg.slippage, a)
  }

  /** A limit purchase that crosses the mid price on arrival pays at most twice its limit. */
  function WaitingClaim(cfg: Settings, o: Order, a: Asset): real
  {
    Claim(cfg, o, 2.0 * o.price + cfg.slippage, a)
  }

  /** A resting purchase pays at most its limit. */
  function RestingClaim(cfg: Settings, o: Order, a: Asset): real
  {
    Claim(cfg, o, o.price, a)
  }

  function MarketClaims(cfg: Settings, cap: real, queue: seq<Request>, a: Asset): real
  {
    if queue == [] then 0.0 else MarketClaim(cfg, cap, queue[0].order, a) + MarketClaims(cfg, cap, queue[1..], a)
  }

  function WaitingClaims(cfg: Settings, queue: seq<Request>, a: Asset): real
  {
    if queue == [] then 0.0 else WaitingClaim(cfg, queue[0].order, a) + WaitingClaims(cfg, queue[1..], a)
  }

  function RestingClaims(cfg: Settings, queue: seq<Order>, a: Asset): real
  {
    if queue == [] then 0.0 else RestingClaim(cfg, queue[0], a) + RestingClaims(cfg, queue[1..], a)
  }

  /** All that the open orders can take of `a`, fees included. */
  function Claims(cfg: Settings, cap: real, s: Sim, a: Asset): real
  {
    MarketClaims(cfg, cap, s.pendingMarket, a) + WaitingClaims(cfg, s.pendingLimit, a) + RestingClaims(cfg, s.resting, a)
  }

  // ----- What is assumed -----

  predicate FairSettings(cfg: Settings)
  {
    0.0 <= cfg.fee <= 1.0 && cfg.slippage >= 0.0
  }

  /** The bid is above the slippage, so that a sale brings something, and the ask below the cap. */
  predicate FairTicker(cfg: Settings, cap: real, t: Ticker)
  {
    cfg.slippage <= t.bid && 0.0 <= t.ask <= cap
  }

  predicate Sized(o: Order)
  {
    o.quantity >= 0.0 && o.price >= 0.0
  }

  /** The totals cover what the open orders can take, and a new market order besides. */
  ghost predicate CoversMarket(cfg: Settings, cap: real, s: Sim, o: Order)
  {
    forall a :: Claims(cfg, cap, s, a) + MarketClaim(cfg, cap, o, a) <= s.account.balance.Total(a)
  }

  /** The same with a new limit order. */
  ghost predicate CoversLimit(cfg: Settings, cap: real, s: Sim, o: Order)
  {
    forall a :: Claims(cfg, cap, s, a) + WaitingClaim(cfg, o, a) <= s.account.balance.Total(a)
  }

  /** The condition on one action, known before it is taken. */
  ghost predicate Funded(cfg: Settings, cap: real, s: Sim, act: Action)
  {
    match act
    case Tick(t) => t.exchange == cfg.exchange ==> FairTicker(cfg, cap, t)
    case Market(symbol, side, quantity) =>
      var o := NewOrder(s.lastId + 1, symbol, side, quantity, 0.0, UnknownStatus);
      Sized(o) && CoversMarket(cfg, cap, s, o)
    case Limit(symbol, side, quantity, price) =>
      var o := NewOrder(s.lastId + 1, symbol, side, quantity, price, UnknownStatus);
      Sized(o) && CoversLimit(cfg, cap, s, o)
    case Send(o) => Sized(o) && CoversLimit(cfg, cap, s, o)
  }

  ghost predicate FundedRun(cfg: Settings, cap: real, acts: seq<Action>)
    requires AllLegal(cfg, acts)
  {
    acts == [] ||
      var front := acts[..|acts| - 1];
      FundedRun(cfg, cap, front) && Funded(cfg, cap, Run(cfg, front), acts[|acts| - 1])
  }

  // ----- No fill takes more than its claim -----

  lemma BookMoves(acc: Account, f: Fill, a: Asset)
    ensures Book(acc, f).balance.Total(a) == acc.balance.Total(a) + Delta(f, a)
  {
  }

  lemma Product(x: real, y: real, z: real)
    requires x >= 0.0 && y >= 0.0 && z >= 0.0
    ensures x * y * z >= 0.0
  {
  }

  lemma CostBound(x: real, unit: real, q: real, k: real)
    requires x <= unit && q >= 0.0 && k >= 0.0
    ensures q * x * k <= unit * q * k && x * q * k <= unit * q * k
  {
    FillPrices.ScaledTwice(x, unit, q, k);
    assert q * x == x * q;
  }

  lemma SaleBrings(cfg: Settings, q: real, t: Ticker)
    requires FairSettings(cfg) && q >= 0.0 && cfg.slippage <= t.bid
    ensures SaleProceeds(cfg, q, t) >= 0.0
  {
    Product(q, t.bid - cfg.slippage, 1.0 - cfg.fee);
  }

  lemma PurchaseCosts(cfg: Settings, q: real, t: Ticker, unit: real)
    requires FairSettings(cfg) && q >= 0.0 && t.ask + cfg.slippage <= unit
    ensures PurchaseCost(cfg, q, t) <= unit * q * (1.0 + cfg.fee)
  {
    CostBound(t.ask + cfg.slippage, unit, q, 1.0 + cfg.fee);
  }

  lemma MarketFillTakes(cfg: Settings, o: Order, t: Ticker, trade: Trade, unit: real, a: Asset)
    requires FairSettings(cfg) && o.quantity >= 0.0 && t.symbol == o.symbol && t.symbol.Pair?
    requires cfg.slippage <= t.bid && (o.side.Buy? ==> t.ask + cfg.slippage <= unit)
    ensures Delta(MarketFill(cfg, o, t, trade), a) >= -Claim(cfg, o, unit, a)
  {
    if o.side.Sell? {
      SaleBrings(cfg, o.quantity, t);
    } else {
      PurchaseCosts(cfg, o.quantity, t, unit);
    }
  }

  lemma RestingFillTakes(cfg: Settings, o: Order, t: Ticker, a: Asset)
    requires FairSettings(cfg) && o.quantity >= 0.0 && t.symbol.Pair? && Reached(o, t) && t.bid >= 0.0
    ensures Delta(RestingFill(cfg, o, t), a) >= -RestingClaim(cfg, o, a)
  {
    if o.side.Sell? {
      Product(t.bid, o.quantity, 1.0 - cfg.fee);
    } else {
      CostBound(t.ask, o.price, o.quantity, 1.0 + cfg.fee);
    }
  }

  /** A limit order that starts to rest claims no more than while it waited. */
  lemma RestingClaimsLess(cfg: Settings, o: Order, a: Asset)
    requires FairSettings(cfg) && Sized(o)
    ensures RestingClaim(cfg, o, a) <= WaitingClaim(cfg, o, a)
  {
    CostBound(o.price, 2.0 * o.price + cfg.slippage, o.quantity, 1.0 + cfg.fee);
  }

  // ----- The passes -----

  ghost predicate SizedRequests(queue: seq<Request>)
  {
    forall r :: r in queue ==> Sized(r.order)
  }

  ghost predicate SizedOrders(queue: seq<Order>)
  {
    forall o :: o in queue ==> Sized(o)
  }

  lemma {:induction false} MarketPassTakes(
      cfg: Settings, cap: real, queue: seq<Request>, acc: Account, last: Option<Ticker>, t: Ticker, a: Asset)
    requires FairSettings(cfg) && SizedRequests(queue)
    requires last.Some? ==> last.value.symbol.Pair? && last.value.symbol == t.symbol && FairTicker(cfg, cap, last.value)
    ensures var (kept, acc') := MarketPass(cfg, queue, acc, last, t);
            && SizedRequests(kept)
            && acc'.balance.Total(a) - MarketClaims(cfg, cap, kept, a)
               >= acc.balance.Total(a) - MarketClaims(cfg, cap, queue, a)
  {
    if queue != [] {
      var r := queue[0];
      if Due(cfg, r, t) && last.Some? {
        var trade := MarketTrade(r.created, last.value, t);
        var fill := MarketFill(cfg, r.order, last.value, trade);
        MarketFillTakes(cfg, r.order, last.value, trade, cap + cfg.slippage, a);
        BookMoves(acc, fill, a);
        MarketPassTakes(cfg, cap, queue[1..], Book(acc, fill), last, t, a);
      } else {
        MarketPassTakes(cfg, cap, queue[1..], acc, last, t, a);
        var kept := MarketPass(cfg, queue[1..], acc, last, t).0;
        assert ([r] + kept)[1..] == kept;
      }
    }
  }

  lemma {:induction false} RestingAppend(cfg: Settings, queue: seq<Order>, o: Order, a: Asset)
    ensures RestingClaims(cfg, queue + [o], a) == RestingClaims(cfg, queue, a) + RestingClaim(cfg, o, a)
  {
    if queue != [] {
      RestingAppend(cfg, queue[1..], o, a);
      assert (queue + [o])[1..] == queue[1..] + [o];
    } else {
      assert (queue + [o])[1..] == [];
    }
  }

  lemma ArrivalFillTakes(cfg: Settings, cap: real, o: Order, created: nat, t: Ticker, a: Asset)
    requires FairSettings(cfg) && Sized(o) && FairTicker(cfg, cap, t)
    requires t.symbol == o.symbol && t.symbol.Pair? && Crosses(o, t)
    ensures Delta(MarketFill(cfg, o, t, ArrivalTrade(created, t)), a) >= -WaitingClaim(cfg, o, a)
  {
    MarketFillTakes(cfg, o, t, ArrivalTrade(created, t), 2.0 * o.price + cfg.slippage, a);
  }

  lemma {:induction false} ArrivalPassTakes(
      cfg: Settings, cap: real, queue: seq<Request>, resting: seq<Order>, acc: Account, t: Ticker, a: Asset)
    requires FairSettings(cfg) && SizedRequests(queue) && SizedOrders(resting)
    requires t.symbol.Pair? && FairTicker(cfg, cap, t)
    ensures var (kept, resting', acc') := ArrivalPass(cfg, queue, resting, acc, t);
            && SizedRequests(kept) && SizedOrders(resting')
            && acc'.balance.Total(a) - WaitingClaims(cfg, kept, a) - RestingClaims(cfg, resting', a)
               >= acc.balance.Total(a) - WaitingClaims(cfg, queue, a) - RestingClaims(cfg, resting, a)
  {
    if queue != [] {
      var r := queue[0];
      if !Due(cfg, r, t) {
        ArrivalPassTakes(cfg, cap, queue[1..], resting, acc, t, a);
        var kept := ArrivalPass(cfg, queue[1..], resting, acc, t).0;
        assert ([r] + kept)[1..] == kept;
      } else if Crosses(r.order, t) {
        var fill := MarketFill(cfg, r.order, t, ArrivalTrade(r.created, t));
        ArrivalFillTakes(cfg, cap, r.order, r.created, t, a);
        BookMoves(acc, fill, a);
        ArrivalPassTakes(cfg, cap, queue[1..], resting, Book(acc, fill), t, a);
      } else {
        RestingAppend(cfg, resting, r.order, a);
        RestingClaimsLess(cfg, r.order, a);
        ArrivalPassTakes(cfg, cap, queue[1..], resting + [r.order], acc, t, a);
      }
    }
  }

  lemma {:induction false} RestingPassTakes(
      cfg: Settings, queue: seq<Order>, acc: Account, t: Ticker, behindFill: bool, a: Asset)
    requires FairSettings(cfg) && SizedOrders(queue) && t.symbol.Pair? && t.bid >= 0.0
    ensures var (kept, acc') := RestingPass(cfg, queue, acc, t, behindFill);
            && SizedOrders(kept)
            && acc'.balance.Total(a) - RestingClaims(cfg, kept, a) >= acc.balance.Total(a) - RestingClaims(cfg, queue, a)
  {
    if queue != [] {
      var o := queue[0];
      assert o in queue;
      if Reached(o, t) && !behindFill {
        RestingFillTakes(cfg, o, t, a);
        BookMoves(acc, RestingFill(cfg, o, t), a);
        RestingPassTakes(cfg, queue[1..], Book(acc, RestingFill(cfg, o, t)), t, true, a);
      } else {
        RestingPassTakes(cfg, queue[1..], acc, t, false, a);
        var kept := RestingPass(cfg, queue[1..], acc, t, false).0;
        assert ([o] + kept)[1..] == kept;
      }
    }
  }

  // ----- Every funded run -----

  /** Open orders are of sensible size, and stored tickers fair. */
  ghost predicate Sensible(cfg: Settings, cap: real, s: Sim)
  {
    && SizedRequests(s.pendingMarket) && SizedRequests(s.pendingLimit) && SizedOrders(s.resting)
    && forall symbol :: symbol in s.tickers ==> FairTicker(cfg, cap, s.tickers[symbol])
  }

  ghost predicate Secured(cfg: Settings, cap: real, s: Sim)
  {
    forall a :: Claims(cfg, cap, s, a) <= s.account.balance.Total(a)
  }

  lemma TickTakes(cfg: Settings, cap: real, s: Sim, t: Ticker, a: Asset)
    requires Valid(s) && FairSettings(cfg) && Sensible(cfg, cap, s)
    requires t.exchange == cfg.exchange && t.symbol.Pair? && FairTicker(cfg, cap, t)
    ensures var s' := OnBookTicker(cfg, s, t);
            && Sensible(cfg, cap, s')
            && s'.account.balance.Total(a) - Claims(cfg, cap, s', a) >= s.account.balance.Total(a) - Claims(cfg, cap, s, a)
  {
    var last := Known(s, t.symbol);
    var (market, acc1) := MarketPass(cfg, s.pendingMarket, s.account, last, t);
    MarketPassTakes(cfg, cap, s.pendingMarket, s.account, last, t, a);
    var (arriving, resting, acc2) := ArrivalPass(cfg, s.pendingLimit, s.resting, acc1, t);
    ArrivalPassTakes(cfg, cap, s.pendingLimit, s.resting, acc1, t, a);
    RestingPassTakes(cfg, resting, acc2, t, false, a);
  }

  lemma {:induction false} MarketAppend(cfg: Settings, cap: real, queue: seq<Request>, r: Request, a: Asset)
    ensures MarketClaims(cfg, cap, queue + [r], a) == MarketClaims(cfg, cap, queue, a) + MarketClaim(cfg, cap, r.order, a)
  {
    if queue != [] {
      MarketAppend(cfg, cap, queue[1..], r, a);
      assert (queue + [r])[1..] == queue[1..] + [r];
    } else {
      assert (queue + [r])[1..] == [];
    }
  }

  lemma {:induction false} WaitingAppend(cfg: Settings, queue: seq<Request>, r: Request, a: Asset)
    ensures WaitingClaims(cfg, queue + [r], a) == WaitingClaims(cfg, queue, a) + WaitingClaim(cfg, r.order, a)
  {
    if queue != [] {
      WaitingAppend(cfg, queue[1..], r, a);
      assert (queue + [r])[1..] == queue[1..] + [r];
    } else {
      assert (queue + [r])[1..] == [];
    }
  }

  lemma MarketSecured(cfg: Settings, cap: real, s: Sim, symbol: Symbol, side: OrderSide, quantity: real)
    requires Sensible(cfg, cap, s) && Funded(cfg, cap, s, Market(symbol, side, quantity))
    ensures var s' := PlaceMarket(s, symbol, side, quantity); Sensible(cfg, cap, s') && Secured(cfg, cap, s')
  {
    var o := NewOrder(s.lastId + 1, symbol, side, quantity, 0.0, UnknownStatus);
    forall a
      ensures Claims(cfg, cap, PlaceMarket(s, symbol, side, quantity), a) <= s.account.balance.Total(a)
    {
      MarketAppend(cfg, cap, s.pendingMarket, Request(o, s.now), a);
    }
  }

  lemma AcceptedClaims(cfg: Settings, cap: real, s: Sim, o: Order, a: Asset)
    requires o.symbol.Pair? && CanExecute(s.account.balance, o)
    ensures Claims(cfg, cap, AddLimit(s, o), a) == Claims(cfg, cap, s, a) + WaitingClaim(cfg, o, a)
  {
    var r := Request(o.(status := New), s.now);
    WaitingAppend(cfg, s.pendingLimit, r, a);
    assert WaitingClaim(cfg, r.order, a) == WaitingClaim(cfg, o, a);
    var s' := AddLimit(s, o);
    assert s'.pendingLimit == s.pendingLimit + [r];
    assert s'.pendingMarket == s.pendingMarket && s'.resting == s.resting;
  }

  lemma LimitSecured(cfg: Settings, cap: real, s: Sim, o: Order)
    requires o.symbol.Pair? && Sized(o) && Sensible(cfg, cap, s) && Secured(cfg, cap, s)
    requires CoversLimit(cfg, cap, s, o)
    ensures Sensible(cfg, cap, AddLimit(s, o)) && Secured(cfg, cap, AddLimit(s, o))
  {
    if CanExecute(s.account.balance, o) {
      forall a
        ensures Claims(cfg, cap, AddLimit(s, o), a) <= s.account.balance.Total(a)
      {
        AcceptedClaims(cfg, cap, s, o, a);
      }
    }
  }

  lemma StepSecured(cfg: Settings, cap: real, s: Sim, act: Action)
    requires Valid(s) && Legal(cfg, act) && FairSettings(cfg) && Funded(cfg, cap, s, act)
    requires Sensible(cfg, cap, s) && Secured(cfg, cap, s)
    ensures var s' := Do(cfg, s, act); Sensible(cfg, cap, s') && Secured(cfg, cap, s')
  {
    match act
    case Tick(t) =>
      if t.exchange == cfg.exchange {
        TickTakes(cfg, cap, s, t, "");
        forall a
          ensures Claims(cfg, cap, OnBookTicker(cfg, s, t), a) <= OnBookTicker(cfg, s, t).account.balance.Total(a)
        {
          TickTakes(cfg, cap, s, t, a);
        }
      }
    case Market(symbol, side, quantity) => MarketSecured(cfg, cap, s, symbol, side, quantity);
    case Limit(symbol, side, quantity, price) =>
      LimitSecured(cfg, cap, s.(lastId := s.lastId + 1),
                   NewOrder(s.lastId + 1, symbol, side, quantity, price, UnknownStatus));
    case Send(o) => LimitSecured(cfg, cap, s, o);
  }

  ghost predicate Funds(cfg: Settings)
  {
    forall a :: a in cfg.initial ==> cfg.initial[a] >= 0.0
  }

  lemma {:induction false} RunSecured(cfg: Settings, cap: real, acts: seq<Action>)
    requires AllLegal(cfg, acts) && FairSettings(cfg) && Funds(cfg) && FundedRun(cfg, cap, acts)
    ensures Sensible(cfg, cap, Run(cfg, acts)) && Secured(cfg, cap, Run(cfg, acts))
  {
    if acts != [] {
      var front := acts[..|acts| - 1];
      RunSecured(cfg, cap, front);
      StepSecured(cfg, cap, Run(cfg, front), acts[|acts| - 1]);
    }
  }

  lemma ClaimNotNegative(cfg: Settings, o: Order, unit: real, a: Asset)
    requires FairSettings(cfg) && Sized(o) && unit >= 0.0
    ensures Claim(cfg, o, unit, a) >= 0.0
  {
    Product(unit, o.quantity, 1.0 + cfg.fee);
  }

  lemma {:induction false} RequestsNotNegative(cfg: Settings, cap: real, queue: seq<Request>, a: Asset)
    requires FairSettings(cfg) && SizedRequests(queue) && cap >= 0.0
    ensures MarketClaims(cfg, cap, queue, a) >= 0.0 && WaitingClaims(cfg, queue, a) >= 0.0
  {
    if queue != [] {
      assert queue[0] in queue;
      ClaimNotNegative(cfg, queue[0].order, cap + cfg.slippage, a);
      ClaimNotNegative(cfg, queue[0].order, 2.0 * queue[0].order.price + cfg.slippage, a);
      RequestsNotNegative(cfg, cap, queue[1..], a);
    }
  }

  lemma {:induction false} OrdersNotNegative(cfg: Settings, queue: seq<Order>, a: Asset)
    requires FairSettings(cfg) && SizedOrders(queue)
    ensures RestingClaims(cfg, queue, a) >= 0.0
  {
    if queue != [] {
      assert queue[0] in queue;
      ClaimNotNegative(cfg, queue[0], queue[0].price, a);
      OrdersNotNegative(cfg, queue[1..], a);
    }
  }

  /** If every order is placed only when the totals cover all that the open orders and the new one
      can take, fees and slippage included, then no total is ever negative. */
  lemma FundedNeverOverdrawn(cfg: Settings, cap: real, acts: seq<Action>, a: Asset)
    requires AllLegal(cfg, acts) && FairSettings(cfg) && Funds(cfg) && cap >= 0.0 && FundedRun(cfg, cap, acts)
    ensures Run(cfg, acts).account.balance.Total(a) >= 0.0
  {
    var s := Run(cfg, acts);
    RunSecured(cfg, cap, acts);
    RequestsNotNegative(cfg, cap, s.pendingMarket, a);
    RequestsNotNegative(cfg, cap, s.pendingLimit, a);
    OrdersNotNegative(cfg, s.resting, a);
  }

  // ----- A run that overdraws -----

  const TIGHT := Settings("x", 0.0, 0.0, 0.0, 0.0, map["B" := 10.0])
  const AT_TEN := Ticker("x", PAIR, 10.0, 10.0, 5)

  lemma BothFill(s: Sim)
    requires Valid(s) && s.pendingMarket == [] && s.resting == [] && s.account.balance.Total("B") == 10.0
    requires s.pendingLimit == [Request(BuyAtTen(1), 0), Request(BuyAtTen(2), 0)]
    ensures OnBookTicker(TIGHT, s, AT_TEN).account.balance.Total("B") == -10.0
  {
    var first := MarketFill(TIGHT, BuyAtTen(1), AT_TEN, ArrivalTrade(0, AT_TEN));
    var second := MarketFill(TIGHT, BuyAtTen(2), AT_TEN, ArrivalTrade(0, AT_TEN));
    FillPrices.BothArrive(TIGHT, Request(BuyAtTen(1), 0), Request(BuyAtTen(2), 0), s.account, AT_TEN);
    FillPrices.OnlyArrivals(TIGHT, s, AT_TEN);
    BookMoves(s.account, first, "B");
    BookMoves(Book(s.account, first), second, "B");
  }

  /** With 10 on the account two purchases of 10 are both accepted, and both fill. */
  lemma TwoPurchasesOverdraw()
    ensures |Run(TIGHT, TwoBuys()).accepted| == 2
    ensures Run(TIGHT, TwoBuys() + [Tick(AT_TEN)]).account.balance.Total("B") == -10.0
  {
    TwoBuysWait(TIGHT);
    RunNext(TIGHT, TwoBuys(), Tick(AT_TEN));
    BothFill(Run(TIGHT, TwoBuys()));
  }
}
