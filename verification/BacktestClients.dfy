/** The backtest exchange client: three queues edited in place while they are scanned. */
module BacktestClients {
  import opened Wrappers
  import opened AccountBalances
  import S = Simulations

  /** Erasing at the index reached so far removes the first element not yet passed. */
  lemma ErasedAt<T>(kept: seq<T>, rest: seq<T>)
    requires rest != []
    ensures (kept + rest)[..|kept|] + (kept + rest)[|kept| + 1..] == kept + rest[1..]
  {
  }

  lemma PassOne<T>(kept: seq<T>, rest: seq<T>)
    requires rest != []
    ensures kept + rest == (kept + [rest[0]]) + rest[1..]
  {
  }

  /** The scan of the market orders has kept `kept` and has `rest` to go, on its way to `whole`. */
  ghost predicate MarketScan(
      cfg: S.Settings, kept: seq<S.Request>, rest: seq<S.Request>, acc: S.Account, last: Option<S.Ticker>, t: S.Ticker,
      whole: (seq<S.Request>, S.Account))
    requires last.Some? ==> last.value.symbol.Pair?
  {
    var now := S.MarketPass(cfg, rest, acc, last, t);
    kept + now.0 == whole.0 && now.1 == whole.1
  }

  lemma MarketStep(
      cfg: S.Settings, kept: seq<S.Request>, rest: seq<S.Request>, acc: S.Account, last: Option<S.Ticker>, t: S.Ticker,
      whole: (seq<S.Request>, S.Account))
    requires last.Some? ==> last.value.symbol.Pair?
    requires rest != [] && MarketScan(cfg, kept, rest, acc, last, t, whole)
    ensures S.Due(cfg, rest[0], t) && last.Some? ==>
              var trade := S.MarketTrade(rest[0].created, last.value, t);
              MarketScan(cfg, kept, rest[1..], S.Book(acc, S.MarketFill(cfg, rest[0].order, last.value, trade)), last, t, whole)
    ensures !(S.Due(cfg, rest[0], t) && last.Some?) ==> MarketScan(cfg, kept + [rest[0]], rest[1..], acc, last, t, whole)
  {
    var next := S.MarketPass(cfg, rest[1..], acc, last, t);
    assert (kept + [rest[0]]) + next.0 == kept + ([rest[0]] + next.0);
  }

  /** The scan of the resting orders, likewise; `behindFill` if it goes on right behind a fill. */
  ghost predicate RestingScan(
      cfg: S.Settings, kept: seq<Order>, rest: seq<Order>, acc: S.Account, t: S.Ticker, behindFill: bool,
      whole: (seq<Order>, S.Account))
    requires t.symbol.Pair?
  {
    var now := S.RestingPass(cfg, rest, acc, t, behindFill);
    kept + now.0 == whole.0 && now.1 == whole.1
  }

  lemma RestingStep(
      cfg: S.Settings, kept: seq<Order>, rest: seq<Order>, acc: S.Account, t: S.Ticker, behindFill: bool,
      whole: (seq<Order>, S.Account))
    requires t.symbol.Pair?
    requires rest != [] && RestingScan(cfg, kept, rest, acc, t, behindFill, whole)
    ensures S.Reached(rest[0], t) && !behindFill ==>
              RestingScan(cfg, kept, rest[1..], S.Book(acc, S.RestingFill(cfg, rest[0], t)), t, true, whole)
    ensures !(S.Reached(rest[0], t) && !behindFill) ==>
              RestingScan(cfg, kept + [rest[0]], rest[1..], acc, t, false, whole)
  {
    var next := S.RestingPass(cfg, rest[1..], acc, t, false);
    assert (kept + [rest[0]]) + next.0 == kept + ([rest[0]] + next.0);
  }

  /** At the end nothing is to go, except perhaps one order right behind a fill. */
  lemma ScanEnds(
      cfg: S.Settings, kept: seq<Order>, rest: seq<Order>, acc: S.Account, t: S.Ticker, behindFill: bool,
      whole: (seq<Order>, S.Account))
    requires t.symbol.Pair? && |rest| <= (if behindFill then 1 else 0)
    requires RestingScan(cfg, kept, rest, acc, t, behindFill, whole)
    ensures whole.0 == kept + rest && whole.1 == acc
  {
    if rest != [] {
      assert S.RestingPass(cfg, rest[1..], acc, t, false) == ([], acc);
      assert S.RestingPass(cfg, rest, acc, t, behindFill).0 == [rest[0]] + [] == rest;
    }
  }

  class BacktestExchangeClient {
    const settings: S.Settings
    const accountBalance: AccountBalance
    var pendingMarketOrders: seq<S.Request>
    var pendingLimitOrders: seq<S.Request>
    var limitOrders: seq<Order>
    var updateTimestamp: nat
    var tickers: map<Symbol, S.Ticker>
    var lastOrderId: nat
    ghost var fills: seq<S.Fill>
    ghost var accepted: seq<Order>

    ghost function Account(): S.Account
      reads this, accountBalance
    {
      S.Account(accountBalance.Value(), fills)
    }

    ghost function State(): S.Sim
      reads this, accountBalance
    {
      S.Sim(Account(), pendingMarketOrders, pendingLimitOrders, limitOrders, updateTimestamp, tickers, lastOrderId, accepted)
    }

    constructor (settings: S.Settings)
      ensures this.settings == settings && fresh(accountBalance)
      ensures State() == S.Start(settings)
    {
      this.settings := settings;
      accountBalance := new AccountBalance(Balance(settings.initial, map[]));
      pendingMarketOrders, pendingLimitOrders, limitOrders := [], [], [];
      updateTimestamp, tickers, lastOrderId := 0, map[], 0;
      fills, accepted := [], [];
    }

    method MarketOrder(symbol: Symbol, side: OrderSide, quantity: real) returns (order: Order)
      modifies this
      ensures State() == S.PlaceMarket(old(State()), symbol, side, quantity)
      ensures pendingMarketOrders == old(pendingMarketOrders) + [S.Request(order, updateTimestamp)]
    {
      lastOrderId := lastOrderId + 1;
      order := S.NewOrder(lastOrderId, symbol, side, quantity, 0.0, UnknownStatus);
      pendingMarketOrders := pendingMarketOrders + [S.Request(order, updateTimestamp)];
      accepted := accepted + [order];
    }

    method LimitOrder(symbol: Symbol, side: OrderSide, quantity: real, price: real) returns (ok: bool)
      requires symbol.Pair?
      modifies this
      ensures State() == S.PlaceLimit(old(State()), symbol, side, quantity, price)
      ensures |accepted| == |old(accepted)| + if ok then 1 else 0
    {
      lastOrderId := lastOrderId + 1;
      ok := AddLimitOrder(S.NewOrder(lastOrderId, symbol, side, quantity, price, UnknownStatus));
    }

    /** Nothing is set aside for an accepted order: funds are looked at once, here. */
    method AddLimitOrder(order: Order) returns (ok: bool)
      requires order.symbol.Pair?
      modifies this`pendingLimitOrders, this`accepted
      ensures State() == S.AddLimit(old(State()), order)
      ensures ok == S.CanExecute(accountBalance.Value(), order)
    {
      ok := CanExecuteOrder(order);
      if !ok {
        return;
      }
      var placed := order.(status := New);
      pendingLimitOrders := pendingLimitOrders + [S.Request(placed, updateTimestamp)];
      accepted := accepted + [placed];
    }

    method CanExecuteOrder(order: Order) returns (can: bool)
      requires order.symbol.Pair?
      ensures can == S.CanExecute(accountBalance.Value(), order)
    {
      if order.side.Sell? {
        var free := accountBalance.GetFreeBalance(order.symbol.base);
        if free < order.quantity {
          return false;
        }
      } else {
        var free := accountBalance.GetFreeBalance(order.symbol.quote);
        if free < order.quantity * order.price {
          return false;
        }
      }
      can := true;
    }

    method OnBookTicker(ticker: S.Ticker)
      requires S.Valid(State()) && S.Readable(settings, ticker)
      modifies this, accountBalance
      ensures State() == S.OnBookTicker(settings, old(State()), ticker)
    {
      updateTimestamp := ticker.arrived;
      if settings.exchange == ticker.exchange {
        HandlePendingMarketOrders(ticker);
        HandlePendingLimitOrders(ticker);
        HandleLimitOrders(ticker);
        tickers := tickers[ticker.symbol := ticker];
      }
    }

    method HandlePendingMarketOrders(ticker: S.Ticker)
      requires S.Valid(State()) && ticker.symbol.Pair?
      modifies this`pendingMarketOrders, this`fills, accountBalance
      ensures var pass := S.MarketPass(
                settings, old(pendingMarketOrders), old(Account()), S.Known(old(State()), ticker.symbol), ticker);
              pendingMarketOrders == pass.0 && Account() == pass.1
    {
      ghost var last := S.Known(State(), ticker.symbol);
      ghost var kept, rest := [], pendingMarketOrders;
      ghost var whole := S.MarketPass(settings, pendingMarketOrders, Account(), last, ticker);
      var i := 0;
      while i < |pendingMarketOrders|
        invariant i == |kept| && pendingMarketOrders == kept + rest
        invariant MarketScan(settings, kept, rest, Account(), last, ticker, whole)
        decreases |rest|
      {
        var request := pendingMarketOrders[i];
        MarketStep(settings, kept, rest, Account(), last, ticker, whole);
        PassOne(kept, rest);
        assert request == rest[0];
        if S.Due(settings, request, ticker) && ticker.symbol in tickers {
          ghost var trade := S.MarketTrade(request.created, tickers[ticker.symbol], ticker);
          ExecuteMarketOrder(request.order, tickers[ticker.symbol], trade);
          pendingMarketOrders := pendingMarketOrders[..i] + pendingMarketOrders[i + 1..];
          ErasedAt(kept, rest);
        } else {
          kept := kept + [request];
          i := i + 1;
        }
        rest := rest[1..];
      }
      assert rest == [];
    }

    /** Fills `order` at the quote of `ticker`. */
    method ExecuteMarketOrder(order: Order, ticker: S.Ticker, ghost trade: S.Trade)
      requires ticker.symbol.Pair?
      modifies this`fills, accountBalance
      ensures Account() == S.Book(old(Account()), S.MarketFill(settings, order, ticker, trade))
    {
      var base, quote := ticker.symbol.base, ticker.symbol.quote;
      fills := fills + [S.MarketFill(settings, order, ticker, trade)];
      if order.side.Sell? {
        var cost := S.SaleProceeds(settings, order.quantity, ticker);
        accountBalance.AddBalance(quote, cost);
        accountBalance.AddBalance(base, -order.quantity);
      } else {
        var cost := S.PurchaseCost(settings, order.quantity, ticker);
        accountBalance.AddBalance(quote, -cost);
        accountBalance.AddBalance(base, order.quantity);
      }
    }

    method HandlePendingLimitOrders(ticker: S.Ticker)
      requires ticker.symbol.Pair?
      modifies this`pendingLimitOrders, this`limitOrders, this`fills, accountBalance
      ensures var pass := S.ArrivalPass(settings, old(pendingLimitOrders), old(limitOrders), old(Account()), ticker);
              pendingLimitOrders == pass.0 && limitOrders == pass.1 && Account() == pass.2
    {
      ghost var kept, rest := [], pendingLimitOrders;
      ghost var whole := S.ArrivalPass(settings, pendingLimitOrders, limitOrders, Account(), ticker);
      var i := 0;
      while i < |pendingLimitOrders|
        invariant i == |kept| && pendingLimitOrders == kept + rest
        invariant var now := S.ArrivalPass(settings, rest, limitOrders, Account(), ticker);
                  kept + now.0 == whole.0 && now.1 == whole.1 && now.2 == whole.2
        decreases |rest|
      {
        var request := pendingLimitOrders[i];
        PassOne(kept, rest);
        assert request == rest[0];
        if !S.Due(settings, request, ticker) {
          kept := kept + [request];
          i := i + 1;
        } else {
          var mid := (ticker.bid + ticker.ask) / 2.0;
          if request.order.side.Sell? {
            if request.order.price <= mid {
              ExecuteMarketOrder(request.order, ticker, S.ArrivalTrade(request.created, ticker));
            } else {
              limitOrders := limitOrders + [request.order];
            }
          } else {
            if request.order.price >= mid {
              ExecuteMarketOrder(request.order, ticker, S.ArrivalTrade(request.created, ticker));
            } else {
              limitOrders := limitOrders + [request.order];
            }
          }
          pendingLimitOrders := pendingLimitOrders[..i] + pendingLimitOrders[i + 1..];
          ErasedAt(kept, rest);
        }
        rest := rest[1..];
      }
      assert rest == [];
    }

    /** Scans the resting orders; after an erasure the index still moves on, past the order that
        took the erased one's place. */
    method HandleLimitOrders(ticker: S.Ticker)
      requires ticker.symbol.Pair?
      modifies this`limitOrders, this`fills, accountBalance
      ensures limitOrders == S.RestingPass(settings, old(limitOrders), old(Account()), ticker, false).0
      ensures Account() == S.RestingPass(settings, old(limitOrders), old(Account()), ticker, false).1
    {
      ghost var kept, rest, behindFill := [], limitOrders, false;
      ghost var whole := S.RestingPass(settings, limitOrders, Account(), ticker, false);
      var i := 0;
      while i < |limitOrders|
        invariant limitOrders == kept + rest && i == |kept| + if behindFill then 1 else 0
        invariant RestingScan(settings, kept, rest, Account(), ticker, behindFill, whole)
        decreases |rest|
      {
        if behindFill {
          RestingStep(settings, kept, rest, Account(), ticker, true, whole);
          PassOne(kept, rest);
          kept, rest, behindFill := kept + [rest[0]], rest[1..], false;
        }
        var order := limitOrders[i];
        assert order == rest[0];
        RestingStep(settings, kept, rest, Account(), ticker, false, whole);
        if S.Reached(order, ticker) {
          FillResting(order, ticker);
          limitOrders := limitOrders[..i] + limitOrders[i + 1..];
          ErasedAt(kept, rest);
          rest, behindFill := rest[1..], true;
        } else {
          PassOne(kept, rest);
          kept, rest := kept + [order], rest[1..];
        }
        i := i + 1;
      }
      ScanEnds(settings, kept, rest, Account(), ticker, behindFill, whole);
    }

    method FillResting(order: Order, ticker: S.Ticker)
      requires ticker.symbol.Pair?
      modifies this`fills, accountBalance
      ensures Account() == S.Book(old(Account()), S.RestingFill(settings, order, ticker))
    {
      var base, quote := ticker.symbol.base, ticker.symbol.quote;
      fills := fills + [S.RestingFill(settings, order, ticker)];
      if order.side.Sell? {
        var cost := S.RestingProceeds(settings, order.quantity, ticker);
        accountBalance.AddBalance(quote, cost);
        accountBalance.AddBalance(base, -order.quantity);
      } else {
        var cost := S.RestingCost(settings, order.quantity, ticker);
        accountBalance.AddBalance(quote, -cost);
        accountBalance.AddBalance(base, order.quantity);
      }
    }
  }
}
