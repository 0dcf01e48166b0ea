/** The backtest exchange as a function of its history: market orders that fill after the
    simulated latency, limit orders that rest, and the balances they move. */
module Simulations {
  import opened Wrappers
  import opened AccountBalances
  import Decimals

  datatype Ticker = Ticker(exchange: string, symbol: Symbol, bid: real, ask: real, arrived: nat)

  datatype Settings = Settings(
    exchange: string, fee: real, slippage: real, latency: real, delay: real, initial: map<Asset, real>)

  datatype Request = Request(order: Order, created: nat)

  datatype Trade =
    | MarketTrade(created: nat, quote: Ticker, trigger: Ticker)  // a market order, at an earlier quote
    | ArrivalTrade(created: nat, ticker: Ticker)                 // a limit order that crosses on arrival
    | RestingTrade(ticker: Ticker)                               // a resting limit order

  /** One fill, with the amounts it moved. */
  datatype Fill = Fill(order: Order, trade: Trade, base: Asset, quote: Asset, baseDelta: real, quoteDelta: real)

  /** The balance and the fills that led to it. */
  datatype Account = Account(balance: Balance, fills: seq<Fill>)

  datatype Sim = Sim(
    account: Account, pendingMarket: seq<Request>, pendingLimit: seq<Request>, resting: seq<Order>,
    now: nat, tickers: map<Symbol, Ticker>, lastId: nat, accepted: seq<Order>)

  // ----- Fills -----

  function AddTo(b: Balance, a: Asset, v: real): Balance
  {
    b.SetTotal(a, b.Total(a) + v)
  }

  function Book(acc: Account, f: Fill): Account
  {
    Account(AddTo(AddTo(acc.balance, f.quote, f.quoteDelta), f.base, f.baseDelta), acc.fills + [f])
  }

  function SaleProceeds(cfg: Settings, quantity: real, t: Ticker): real
  {
    quantity * (t.bid - cfg.slippage) * (1.0 - cfg.fee)
  }

  function PurchaseCost(cfg: Settings, quantity: real, t: Ticker): real
  {
    quantity * (t.ask + cfg.slippage) * (1.0 + cfg.fee)
  }

  function RestingProceeds(cfg: Settings, quantity: real, t: Ticker): real
  {
    t.bid * quantity * (1.0 - cfg.fee)
  }

  function RestingCost(cfg: Settings, quantity: real, t: Ticker): real
  {
    t.ask * quantity * (1.0 + cfg.fee)
  }

  /** The fill of an order at the quote `t`, slippage included. */
  function MarketFill(cfg: Settings, o: Order, t: Ticker, trade: Trade): Fill
    requires t.symbol.Pair?
  {
    if o.side.Sell? then
      Fill(o, trade, t.symbol.base, t.symbol.quote, -o.quantity, SaleProceeds(cfg, o.quantity, t))
    else
      Fill(o, trade, t.symbol.base, t.symbol.quote, o.quantity, -PurchaseCost(cfg, o.quantity, t))
  }

  /** The fill of a resting order at the quote `t`, without slippage. */
  function RestingFill(cfg: Settings, o: Order, t: Ticker): Fill
    requires t.symbol.Pair?
  {
    if o.side.Sell? then
      Fill(o, RestingTrade(t), t.symbol.base, t.symbol.quote, -o.quantity, RestingProceeds(cfg, o.quantity, t))
    else
      Fill(o, RestingTrade(t), t.symbol.base, t.symbol.quote, o.quantity, -RestingCost(cfg, o.quantity, t))
  }

  // ----- The three passes over the queues -----

  /** The time from which an order created at `created` can take effect. */
  function Deadline(cfg: Settings, created: nat): real
  {
    created as real + 2.0 * cfg.latency + cfg.delay
  }

  predicate Due(cfg: Settings, r: Request, t: Ticker)
  {
    r.order.symbol == t.symbol && Deadline(cfg, r.created) < t.arrived as real
  }

  /** Due market orders fill at `last`, the quote before `t`; the others stay. */
  function MarketPass(cfg: Settings, queue: seq<Request>, acc: Account, last: Option<Ticker>, t: Ticker): (seq<Request>, Account)
    requires last.Some? ==> last.value.symbol.Pair?
  {
    if queue == [] then ([], acc)
    else if Due(cfg, queue[0], t) && last.Some? then
      var fill := MarketFill(cfg, queue[0].order, last.value, MarketTrade(queue[0].created, last.value, t));
      MarketPass(cfg, queue[1..], Book(acc, fill), last, t)
    else
      var (kept, acc') := MarketPass(cfg, queue[1..], acc, last, t);
      ([queue[0]] + kept, acc')
  }

  /** A limit order trades on arrival when its price is at or through the mid price. */
  predicate Crosses(o: Order, t: Ticker)
  {
    var mid := (t.bid + t.ask) / 2.0;
    if o.side.Sell? then o.price <= mid else o.price >= mid
  }

  /** Due limit orders fill at `t` or start to rest; the others stay. */
  function ArrivalPass(cfg: Settings, queue: seq<Request>, resting: seq<Order>, acc: Account, t: Ticker)
    : (seq<Request>, seq<Order>, Account)
    requires t.symbol.Pair?
  {
    if queue == [] then ([], resting, acc)
    else if !Due(cfg, queue[0], t) then
      var (kept, resting', acc') := ArrivalPass(cfg, queue[1..], resting, acc, t);
      ([queue[0]] + kept, resting', acc')
    else if Crosses(queue[0].order, t) then
      var fill := MarketFill(cfg, queue[0].order, t, ArrivalTrade(queue[0].created, t));
      ArrivalPass(cfg, queue[1..], resting, Book(acc, fill), t)
    else
      ArrivalPass(cfg, queue[1..], resting + [queue[0].order], acc, t)
  }

  predicate Reached(o: Order, t: Ticker)
  {
    o.symbol == t.symbol && (if o.side.Sell? then t.bid >= o.price else t.ask <= o.price)
  }

  /** Resting orders the quote has reached fill, except right behind a fill: the erasing loop does
      not step back, so the order that takes an erased one's place waits for the next ticker. */
  function RestingPass(cfg: Settings, queue: seq<Order>, acc: Account, t: Ticker, behindFill: bool): (seq<Order>, Account)
    requires t.symbol.Pair?
  {
    if queue == [] then ([], acc)
    else if Reached(queue[0], t) && !behindFill then
      RestingPass(cfg, queue[1..], Book(acc, RestingFill(cfg, queue[0], t)), t, true)
    else
      var (kept, acc') := RestingPass(cfg, queue[1..], acc, t, false);
      ([queue[0]] + kept, acc')
  }

  // ----- The operations -----

  function Known(s: Sim, symbol: Symbol): Option<Ticker>
  {
    if symbol in s.tickers then Some(s.tickers[symbol]) else None
  }

  ghost predicate Valid(s: Sim)
  {
    forall symbol :: symbol in s.tickers ==> symbol.Pair? && s.tickers[symbol].symbol == symbol
  }

  /** A ticker of the simulated exchange for an unknown pair raises an exception;
      tickers of other exchanges are not looked at. */
  predicate Readable(cfg: Settings, t: Ticker)
  {
    t.exchange == cfg.exchange ==> t.symbol.Pair?
  }

  function OnBookTicker(cfg: Settings, s: Sim, t: Ticker): (s': Sim)
    requires Valid(s) && Readable(cfg, t)
    ensures Valid(s') && s'.now == t.arrived && s'.accepted == s.accepted
  {
    if cfg.exchange != t.exchange then s.(now := t.arrived)
    else
      var (market, acc1) := MarketPass(cfg, s.pendingMarket, s.account, Known(s, t.symbol), t);
      var (arriving, resting, acc2) := ArrivalPass(cfg, s.pendingLimit, s.resting, acc1, t);
      var (rested, acc3) := RestingPass(cfg, resting, acc2, t, false);
      Sim(acc3, market, arriving, rested, t.arrived, s.tickers[t.symbol := t], s.lastId, s.accepted)
  }

  function NewOrder(id: nat, symbol: Symbol, side: OrderSide, quantity: real, price: real, status: Status): Order
  {
    Order(Decimals.Print(id), symbol, side, quantity, price, status, 0.0, 0.0)
  }

  function PlaceMarket(s: Sim, symbol: Symbol, side: OrderSide, quantity: real): Sim
  {
    var o := NewOrder(s.lastId + 1, symbol, side, quantity, 0.0, UnknownStatus);
    s.(lastId := s.lastId + 1, pendingMarket := s.pendingMarket + [Request(o, s.now)], accepted := s.accepted + [o])
  }

  predicate CanExecute(b: Balance, o: Order)
    requires o.symbol.Pair?
  {
    if o.side.Sell? then b.Free(o.symbol.base) >= o.quantity
    else b.Free(o.symbol.quote) >= o.quantity * o.price
  }

  function AddLimit(s: Sim, o: Order): Sim
    requires o.symbol.Pair?
  {
    if !CanExecute(s.account.balance, o) then s
    else
      var o' := o.(status := New);
      s.(pendingLimit := s.pendingLimit + [Request(o', s.now)], accepted := s.accepted + [o'])
  }

  function PlaceLimit(s: Sim, symbol: Symbol, side: OrderSide, quantity: real, price: real): Sim
    requires symbol.Pair?
  {
    AddLimit(s.(lastId := s.lastId + 1), NewOrder(s.lastId + 1, symbol, side, quantity, price, UnknownStatus))
  }

  datatype Action =
    | Tick(ticker: Ticker)
    | Market(symbol: Symbol, side: OrderSide, quantity: real)
    | Limit(symbol: Symbol, side: OrderSide, quantity: real, price: real)
    | Send(order: Order)  // a limit order that carries the caller's own id

  predicate Legal(cfg: Settings, act: Action)
  {
    match act
    case Tick(t) => Readable(cfg, t)
    case Market(_, _, _) => true
    case Limit(symbol, _, _, _) => symbol.Pair?
    case Send(o) => o.symbol.Pair?
  }

  predicate AllLegal(cfg: Settings, acts: seq<Action>)
  {
    forall i :: 0 <= i < |acts| ==> Legal(cfg, acts[i])
  }

  function Start(cfg: Settings): Sim
  {
    Sim(Account(Balance(cfg.initial, map[]), []), [], [], [], 0, map[], 0, [])
  }

  function Do(cfg: Settings, s: Sim, act: Action): (s': Sim)
    requires Valid(s) && Legal(cfg, act)
    ensures Valid(s')
  {
    match act
    case Tick(t) => OnBookTicker(cfg, s, t)
    case Market(symbol, side, quantity) => PlaceMarket(s, symbol, side, quantity)
    case Limit(symbol, side, quantity, price) => PlaceLimit(s, symbol, side, quantity, price)
    case Send(o) => AddLimit(s, o)
  }

  function Run(cfg: Settings, acts: seq<Action>): (s: Sim)
    requires AllLegal(cfg, acts)
    ensures Valid(s)
  {
    if acts == [] then Start(cfg) else Do(cfg, Run(cfg, acts[..|acts| - 1]), acts[|acts| - 1])
  }

  lemma RunNext(cfg: Settings, acts: seq<Action>, act: Action)
    requires AllLegal(cfg, acts) && Legal(cfg, act)
    ensures AllLegal(cfg, acts + [act]) && Run(cfg, acts + [act]) == Do(cfg, Run(cfg, acts), act)
  {
    assert (acts + [act])[..|acts|] == acts;
  }

  // ----- Conservation -----

  /** How often `o` occurs in a list of orders. */
  function Among(orders: seq<Order>, o: Order): nat
  {
    if orders == [] then 0 else (if orders[0] == o then 1 else 0) + Among(orders[1..], o)
  }

  function Waiting(queue: seq<Request>, o: Order): nat
  {
    if queue == [] then 0 else (if queue[0].order == o then 1 else 0) + Waiting(queue[1..], o)
  }

  function Filled(fills: seq<Fill>, o: Order): nat
  {
    if fills == [] then 0
    else Filled(fills[..|fills| - 1], o) + (if fills[|fills| - 1].order == o then 1 else 0)
  }

  /** How often `o` occurs in all the places an order can be. */
  function Places(s: Sim, o: Order): nat
  {
    Waiting(s.pendingMarket, o) + Waiting(s.pendingLimit, o) + Among(s.resting, o) + Filled(s.account.fills, o)
  }

  function Delta(f: Fill, a: Asset): real
  {
    (if f.quote == a then f.quoteDelta else 0.0) + (if f.base == a then f.baseDelta else 0.0)
  }

  function Moved(fills: seq<Fill>, a: Asset): real
  {
    if fills == [] then 0.0 else Moved(fills[..|fills| - 1], a) + Delta(fills[|fills| - 1], a)
  }

  /** The balance is what the fills made of the initial one; nothing is ever locked. */
  ghost predicate Accounted(cfg: Settings, acc: Account)
  {
    && acc.balance.locked == map[]
    && forall a :: acc.balance.Total(a) == Balance(cfg.initial, map[]).Total(a) + Moved(acc.fills, a)
  }

  lemma BookAccounted(cfg: Settings, acc: Account, f: Fill, o: Order)
    requires Accounted(cfg, acc)
    ensures Accounted(cfg, Book(acc, f))
    ensures Filled(Book(acc, f).fills, o) == Filled(acc.fills, o) + if f.order == o then 1 else 0
  {
  }

  lemma {:induction false} WaitingAppend(queue: seq<Request>, r: Request, o: Order)
    ensures Waiting(queue + [r], o) == Waiting(queue, o) + if r.order == o then 1 else 0
  {
    if queue != [] {
      WaitingAppend(queue[1..], r, o);
      assert (queue + [r])[1..] == queue[1..] + [r];
    } else {
      assert (queue + [r])[1..] == [];
    }
  }

  lemma {:induction false} AmongAppend(orders: seq<Order>, x: Order, o: Order)
    ensures Among(orders + [x], o) == Among(orders, o) + if x == o then 1 else 0
  {
    if orders != [] {
      AmongAppend(orders[1..], x, o);
      assert (orders + [x])[1..] == orders[1..] + [x];
    } else {
      assert (orders + [x])[1..] == [];
    }
  }

  lemma {:induction false} MarketPassConserves(
      cfg: Settings, queue: seq<Request>, acc: Account, last: Option<Ticker>, t: Ticker, o: Order)
    requires last.Some? ==> last.value.symbol.Pair?
    requires Accounted(cfg, acc)
    ensures var (kept, acc') := MarketPass(cfg, queue, acc, last, t);
            && Accounted(cfg, acc')
            && Waiting(kept, o) + Filled(acc'.fills, o) == Waiting(queue, o) + Filled(acc.fills, o)
  {
    if queue != [] {
      if Due(cfg, queue[0], t) && last.Some? {
        var fill := MarketFill(cfg, queue[0].order, last.value, MarketTrade(queue[0].created, last.value, t));
        BookAccounted(cfg, acc, fill, o);
        MarketPassConserves(cfg, queue[1..], Book(acc, fill), last, t, o);
      } else {
        MarketPassConserves(cfg, queue[1..], acc, last, t, o);
        var (kept, acc') := MarketPass(cfg, queue[1..], acc, last, t);
        assert ([queue[0]] + kept)[1..] == kept;
      }
    }
  }

  lemma {:induction false} ArrivalPassConserves(
      cfg: Settings, queue: seq<Request>, resting: seq<Order>, acc: Account, t: Ticker, o: Order)
    requires t.symbol.Pair? && Accounted(cfg, acc)
    ensures var (kept, resting', acc') := ArrivalPass(cfg, queue, resting, acc, t);
            && Accounted(cfg, acc')
            && Waiting(kept, o) + Among(resting', o) + Filled(acc'.fills, o)
               == Waiting(queue, o) + Among(resting, o) + Filled(acc.fills, o)
  {
    if queue != [] {
      if !Due(cfg, queue[0], t) {
        ArrivalPassConserves(cfg, queue[1..], resting, acc, t, o);
        var (kept, _, _) := ArrivalPass(cfg, queue[1..], resting, acc, t);
        assert ([queue[0]] + kept)[1..] == kept;
      } else if Crosses(queue[0].order, t) {
        var fill := MarketFill(cfg, queue[0].order, t, ArrivalTrade(queue[0].created, t));
        BookAccounted(cfg, acc, fill, o);
        ArrivalPassConserves(cfg, queue[1..], resting, Book(acc, fill), t, o);
      } else {
        AmongAppend(resting, queue[0].order, o);
        ArrivalPassConserves(cfg, queue[1..], resting + [queue[0].order], acc, t, o);
      }
    }
  }

  lemma {:induction false} RestingPassConserves(
      cfg: Settings, queue: seq<Order>, acc: Account, t: Ticker, behindFill: bool, o: Order)
    requires t.symbol.Pair? && Accounted(cfg, acc)
    ensures var (kept, acc') := RestingPass(cfg, queue, acc, t, behindFill);
            && Accounted(cfg, acc')
            && Among(kept, o) + Filled(acc'.fills, o) == Among(queue, o) + Filled(acc.fills, o)
  {
    if queue != [] {
      if Reached(queue[0], t) && !behindFill {
        var fill := RestingFill(cfg, queue[0], t);
        BookAccounted(cfg, acc, fill, o);
        RestingPassConserves(cfg, queue[1..], Book(acc, fill), t, true, o);
      } else {
        RestingPassConserves(cfg, queue[1..], acc, t, false, o);
        var (kept, _) := RestingPass(cfg, queue[1..], acc, t, false);
        assert ([queue[0]] + kept)[1..] == kept;
      }
    }
  }

  lemma TickConserves(cfg: Settings, s: Sim, t: Ticker, o: Order)
    requires Valid(s) && Readable(cfg, t) && Accounted(cfg, s.account)
    ensures var s' := OnBookTicker(cfg, s, t); Accounted(cfg, s'.account) && Places(s', o) == Places(s, o)
  {
    if cfg.exchange == t.exchange {
      var (market, acc1) := MarketPass(cfg, s.pendingMarket, s.account, Known(s, t.symbol), t);
      MarketPassConserves(cfg, s.pendingMarket, s.account, Known(s, t.symbol), t, o);
      var (arriving, resting, acc2) := ArrivalPass(cfg, s.pendingLimit, s.resting, acc1, t);
      ArrivalPassConserves(cfg, s.pendingLimit, s.resting, acc1, t, o);
      RestingPassConserves(cfg, resting, acc2, t, false, o);
    }
  }

  lemma PlacementConserves(cfg: Settings, s: Sim, act: Action, o: Order)
    requires Valid(s) && Legal(cfg, act) && !act.Tick? && Among(s.accepted, o) == Places(s, o)
    ensures var s' := Do(cfg, s, act); Among(s'.accepted, o) == Places(s', o) && s'.account == s.account
  {
    var s' := Do(cfg, s, act);
    if s'.accepted != s.accepted {
      var x := s'.accepted[|s'.accepted| - 1];
      AmongAppend(s.accepted, x, o);
      WaitingAppend(if act.Market? then s.pendingMarket else s.pendingLimit, Request(x, s.now), o);
    }
  }

  /** After any run, each order occurs as often among the waiting, the resting and the filled ones
      as it was accepted, and every balance is the initial one plus the signed amounts of the fills. */
  lemma {:induction false} Conservation(cfg: Settings, acts: seq<Action>, o: Order)
    requires AllLegal(cfg, acts)
    ensures var s := Run(cfg, acts); Among(s.accepted, o) == Places(s, o) && Accounted(cfg, s.account)
  {
    if acts != [] {
      var front, act := acts[..|acts| - 1], acts[|acts| - 1];
      Conservation(cfg, front, o);
      if act.Tick? {
        TickConserves(cfg, Run(cfg, front), act.ticker, o);
      } else {
        PlacementConserves(cfg, Run(cfg, front), act, o);
      }
    }
  }

  // ----- Distinct ids: each order in exactly one place -----

  /** The ids given out so far are distinct numerals up to the counter. */
  ghost predicate Numbered(s: Sim)
  {
    && (forall o :: o in s.accepted ==> exists k: nat :: k <= s.lastId && o.id == Decimals.Print(k))
    && (forall i, j :: 0 <= i < j < |s.accepted| ==> s.accepted[i].id != s.accepted[j].id)
  }

  lemma NumberedNext(s: Sim, s': Sim, o: Order)
    requires Numbered(s) && s'.lastId == s.lastId + 1
    requires s'.accepted == s.accepted || (s'.accepted == s.accepted + [o] && o.id == Decimals.Print(s'.lastId))
    ensures Numbered(s')
  {
    forall x | x in s.accepted
      ensures x.id != Decimals.Print(s'.lastId)
    {
      var k: nat :| k <= s.lastId && x.id == Decimals.Print(k);
      Decimals.PrintInjective(k, s'.lastId);
    }
  }

  lemma PlacementNumbered(cfg: Settings, s: Sim, act: Action)
    requires Valid(s) && Legal(cfg, act) && !act.Tick? && !act.Send? && Numbered(s)
    ensures Numbered(Do(cfg, s, act))
  {
    var s' := Do(cfg, s, act);
    var o := if s'.accepted == s.accepted then NewOrder(0, Unknown, Buy, 0.0, 0.0, New) else s'.accepted[|s'.accepted| - 1];
    NumberedNext(s, s', o);
  }

  lemma {:induction false} IdsDistinct(cfg: Settings, acts: seq<Action>)
    requires AllLegal(cfg, acts) && forall i :: 0 <= i < |acts| ==> !acts[i].Send?
    ensures Numbered(Run(cfg, acts))
  {
    if acts != [] {
      var front, act := acts[..|acts| - 1], acts[|acts| - 1];
      IdsDistinct(cfg, front);
      if !act.Tick? {
        PlacementNumbered(cfg, Run(cfg, front), act);
      }
    }
  }

  lemma {:induction false} NoneWithId(orders: seq<Order>, o: Order)
    requires forall i :: 0 <= i < |orders| ==> orders[i].id != o.id
    ensures Among(orders, o) == 0
  {
    if orders != [] {
      NoneWithId(orders[1..], o);
    }
  }

  lemma {:induction false} OneOfEach(orders: seq<Order>, i: nat)
    requires i < |orders| && forall a, b :: 0 <= a < b < |orders| ==> orders[a].id != orders[b].id
    ensures Among(orders, orders[i]) == 1
  {
    if i == 0 {
      NoneWithId(orders[1..], orders[0]);
    } else {
      OneOfEach(orders[1..], i - 1);
    }
  }

  /** Each order accepted by `MarketOrder` or `LimitOrder` is in exactly one place, and there once:
      none is lost and none is filled twice. */
  lemma ExactlyOnePlace(cfg: Settings, acts: seq<Action>, i: nat)
    requires AllLegal(cfg, acts) && forall k :: 0 <= k < |acts| ==> !acts[k].Send?
    requires i < |Run(cfg, acts).accepted|
    ensures var s := Run(cfg, acts); var o := s.accepted[i];
            Waiting(s.pendingMarket, o) + Waiting(s.pendingLimit, o) + Among(s.resting, o) + Filled(s.account.fills, o) == 1
  {
    var s := Run(cfg, acts);
    Conservation(cfg, acts, s.accepted[i]);
    IdsDistinct(cfg, acts);
    OneOfEach(s.accepted, i);
  }

  // ----- What the resting pass leaves behind -----

  /** The number of consecutive reached orders that end at position `i`. */
  function ReachedUpTo(queue: seq<Order>, t: Ticker, i: nat): (n: nat)
    requires i < |queue|
    ensures n <= i + 1
    ensures forall j :: i + 1 - n <= j <= i ==> Reached(queue[j], t)
    ensures n <= i ==> !Reached(queue[i - n], t)
  {
    if !Reached(queue[i], t) then 0 else if i == 0 then 1 else 1 + ReachedUpTo(queue, t, i - 1)
  }

  /** The orders from `a` to `i` are reached, and the one before them is not. */
  ghost predicate Stretch(queue: seq<Order>, t: Ticker, a: nat, i: nat)
  {
    && a <= i < |queue|
    && (forall j :: a <= j <= i ==> Reached(queue[j], t))
    && (a > 0 ==> !Reached(queue[a - 1], t))
  }

  lemma {:induction false} StretchCounts(queue: seq<Order>, t: Ticker, a: nat, i: nat)
    requires Stretch(queue, t, a, i)
    ensures ReachedUpTo(queue, t, i) == i + 1 - a
  {
    if a < i {
      StretchCounts(queue, t, a, i - 1);
    }
  }

  /** Which orders are the first, third, fifth and so on of their stretch. */
  function EverySecond(queue: seq<Order>, t: Ticker): (takes: seq<bool>)
    ensures |takes| == |queue|
  {
    seq(|queue|, i requires 0 <= i < |queue| => ReachedUpTo(queue, t, i) % 2 == 1)
  }

  lemma EverySecondIff(queue: seq<Order>, t: Ticker, a: nat, i: nat)
    requires Stretch(queue, t, a, i)
    ensures EverySecond(queue, t)[i] <==> (i - a) % 2 == 0
  {
    StretchCounts(queue, t, a, i);
  }

  /** The first `i` orders without those taken. */
  function LeftResting(queue: seq<Order>, takes: seq<bool>, i: nat): seq<Order>
    requires i <= |queue| == |takes|
  {
    if i == 0 then [] else LeftResting(queue, takes, i - 1) + (if takes[i - 1] then [] else [queue[i - 1]])
  }

  /** The account after fills of those taken among the first `i` orders. */
  function FilledSoFar(cfg: Settings, queue: seq<Order>, takes: seq<bool>, acc: Account, t: Ticker, i: nat): Account
    requires t.symbol.Pair? && i <= |queue| == |takes|
  {
    if i == 0 then acc
    else
      var before := FilledSoFar(cfg, queue, takes, acc, t, i - 1);
      if takes[i - 1] then Book(before, RestingFill(cfg, queue[i - 1], t)) else before
  }

  /** A reached order is taken unless the one before it was. */
  ghost predicate Alternates(queue: seq<Order>, t: Ticker, takes: seq<bool>)
  {
    && |takes| == |queue|
    && forall i :: 0 <= i < |queue| ==> (takes[i] <==> Reached(queue[i], t) && !(i > 0 && takes[i - 1]))
  }

  lemma EverySecondNext(queue: seq<Order>, t: Ticker, i: nat)
    requires i < |queue|
    ensures EverySecond(queue, t)[i] <==> Reached(queue[i], t) && !(i > 0 && EverySecond(queue, t)[i - 1])
  {
  }

  lemma EverySecondAlternates(queue: seq<Order>, t: Ticker)
    ensures Alternates(queue, t, EverySecond(queue, t))
  {
    forall i | 0 <= i < |queue|
      ensures EverySecond(queue, t)[i] <==> Reached(queue[i], t) && !(i > 0 && EverySecond(queue, t)[i - 1])
    {
      EverySecondNext(queue, t, i);
    }
  }

  lemma {:induction false} PassFrom(cfg: Settings, queue: seq<Order>, takes: seq<bool>, acc: Account, t: Ticker, i: nat)
    requires t.symbol.Pair? && i <= |queue| && Alternates(queue, t, takes)
    ensures var rest := RestingPass(
              cfg, queue[i..], FilledSoFar(cfg, queue, takes, acc, t, i), t, i > 0 && takes[i - 1]);
            && LeftResting(queue, takes, i) + rest.0 == LeftResting(queue, takes, |queue|)
            && rest.1 == FilledSoFar(cfg, queue, takes, acc, t, |queue|)
    decreases |queue| - i
  {
    if i < |queue| {
      assert queue[i..][1..] == queue[i + 1..] && queue[i..][0] == queue[i];
      PassFrom(cfg, queue, takes, acc, t, i + 1);
      var left, kept := LeftResting(queue, takes, i), if takes[i] then [] else [queue[i]];
      var rest := RestingPass(cfg, queue[i + 1..], FilledSoFar(cfg, queue, takes, acc, t, i + 1), t, takes[i]).0;
      assert (left + kept) + rest == left + (kept + rest);
    }
  }

  /** The pass fills exactly the orders that alternate, in their order. */
  lemma PassAlternates(cfg: Settings, queue: seq<Order>, takes: seq<bool>, acc: Account, t: Ticker)
    requires t.symbol.Pair? && Alternates(queue, t, takes)
    ensures var pass := RestingPass(cfg, queue, acc, t, false);
            && pass.0 == LeftResting(queue, takes, |queue|)
            && pass.1 == FilledSoFar(cfg, queue, takes, acc, t, |queue|)
  {
    assert queue[0..] == queue;
    PassFrom(cfg, queue, takes, acc, t, 0);
    assert LeftResting(queue, takes, 0) == [];
  }

  /** The pass fills the first, third, fifth and so on of every stretch of consecutive orders the
      quote has reached, in their order, and leaves all others resting: the erasing loop passes
      over every second one until the next ticker. */
  lemma {:induction false} EverySecondPassedOver(cfg: Settings, queue: seq<Order>, acc: Account, t: Ticker)
    requires t.symbol.Pair?
    ensures var takes, pass := EverySecond(queue, t), RestingPass(cfg, queue, acc, t, false);
            && pass.0 == LeftResting(queue, takes, |queue|)
            && pass.1 == FilledSoFar(cfg, queue, takes, acc, t, |queue|)
            && (forall i :: 0 <= i < |queue| && takes[i] ==> Reached(queue[i], t))
            && (forall a: nat, i: nat :: Stretch(queue, t, a, i) ==> (takes[i] <==> (i - a) % 2 == 0))
  {
    var takes := EverySecond(queue, t);
    EverySecondAlternates(queue, t);
    PassAlternates(cfg, queue, takes, acc, t);
    forall a: nat, i: nat | Stretch(queue, t, a, i)
      ensures takes[i] <==> (i - a) % 2 == 0
    {
      EverySecondIff(queue, t, a, i);
    }
  }

  // ----- A run that passes an order over -----

  const PAIR := Pair("A", "B")
  const RICH := Settings("x", 0.0, 0.0, 0.0, 0.0, map["B" := 20.0])
  const HIGH := Ticker("x", PAIR, 11.0, 13.0, 5)
  const LOW := Ticker("x", PAIR, 9.0, 10.0, 6)

  function BuyAtTen(id: nat): Order
  {
    NewOrder(id, PAIR, Buy, 1.0, 10.0, New)
  }

  function TwoBuys(): seq<Action>
  {
    [Limit(PAIR, Buy, 1.0, 10.0)] + [Limit(PAIR, Buy, 1.0, 10.0)]
  }

  lemma TwoBuysWait(cfg: Settings)
    requires cfg.initial == map["B" := 20.0] || cfg.initial == map["B" := 10.0]
    ensures var s := Run(cfg, TwoBuys());
            && s.pendingMarket == [] && s.resting == [] && s.tickers == map[]
            && s.account == Account(Balance(cfg.initial, map[]), []) && |s.accepted| == 2
            && s.pendingLimit == [Request(BuyAtTen(1), 0), Request(BuyAtTen(2), 0)]
  {
    var act := Limit(PAIR, Buy, 1.0, 10.0);
    RunNext(cfg, [], act);
    assert [] + [act] == [act];
    RunNext(cfg, [act], act);
  }

  lemma StaysAlone(cfg: Settings, o: Order, acc: Account, t: Ticker, behindFill: bool)
    requires t.symbol.Pair? && (behindFill || !Reached(o, t))
    ensures RestingPass(cfg, [o], acc, t, behindFill) == ([o], acc)
  {
    assert [o][1..] == [] && [o] + [] == [o];
    assert RestingPass(cfg, [], acc, t, false) == ([], acc);
  }

  /** Neither order crosses the mid price nor is reached: both start to rest. */
  lemma BothRest(s: Sim)
    requires Valid(s) && s.pendingMarket == [] && s.resting == []
    requires s.pendingLimit == [Request(BuyAtTen(1), 0), Request(BuyAtTen(2), 0)]
    ensures var s' := OnBookTicker(RICH, s, HIGH);
            && s'.pendingMarket == [] && s'.pendingLimit == [] && s'.account == s.account
            && s'.resting == [BuyAtTen(1), BuyAtTen(2)]
  {
    var a, b := BuyAtTen(1), BuyAtTen(2);
    assert s.pendingLimit[1..] == [Request(b, 0)] && s.pendingLimit[1..][1..] == [];
    assert ArrivalPass(RICH, [Request(b, 0)], [a], s.account, HIGH) == ([], [a, b], s.account) by {
      assert [Request(b, 0)][1..] == [] && [a] + [b] == [a, b];
    }
    assert [] + [a] == [a];
    assert [a, b][1..] == [b] && [a] + [b] == [a, b];
    StaysAlone(RICH, b, s.account, HIGH, false);
  }

  lemma SecondPassedOver(s: Sim)
    requires Valid(s) && s.pendingMarket == [] && s.pendingLimit == [] && s.resting == [BuyAtTen(1), BuyAtTen(2)]
    ensures var s' := OnBookTicker(RICH, s, LOW);
            s'.resting == [BuyAtTen(2)] && s'.account.fills == s.account.fills + [RestingFill(RICH, BuyAtTen(1), LOW)]
  {
    var a, b := BuyAtTen(1), BuyAtTen(2);
    var acc := Book(s.account, RestingFill(RICH, a, LOW));
    assert [a, b][1..] == [b];
    StaysAlone(RICH, b, acc, LOW, true);
  }

  /** Two purchases at 10 rest side by side. When the ask comes down to 10 the first one fills and
      the second, as good as it, is left resting. */
  lemma ReachedAndPassedOver()
    ensures var s := Run(RICH, TwoBuys() + [Tick(HIGH)] + [Tick(LOW)]);
            s.resting == [BuyAtTen(2)] && s.account.fills == [RestingFill(RICH, BuyAtTen(1), LOW)]
    ensures Reached(BuyAtTen(2), LOW)
  {
    TwoBuysWait(RICH);
    RunNext(RICH, TwoBuys(), Tick(HIGH));
    BothRest(Run(RICH, TwoBuys()));
    RunNext(RICH, TwoBuys() + [Tick(HIGH)], Tick(LOW));
    SecondPassedOver(Run(RICH, TwoBuys() + [Tick(HIGH)]));
  }
}
