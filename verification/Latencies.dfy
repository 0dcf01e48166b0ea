/** When and at which quote the simulator fills market orders. */
module Latencies {
  import opened Wrappers
  import opened AccountBalances
  import opened Simulations

  /** The tickers of `symbol` on the simulated exchange, oldest first. */
  function Own(cfg: Settings, acts: seq<Action>, symbol: Symbol): seq<Ticker>
  {
    if acts == [] then []
    else
      var earlier, act := Own(cfg, acts[..|acts| - 1], symbol), acts[|acts| - 1];
      if act.Tick? && act.ticker.exchange == cfg.exchange && act.ticker.symbol == symbol then earlier + [act.ticker]
      else earlier
  }

  /** Tickers of all exchanges arrive in order of their time stamps. */
  ghost predicate Chronological(acts: seq<Action>)
  {
    forall i, j :: 0 <= i < j < |acts| && acts[i].Tick? && acts[j].Tick? ==> acts[i].ticker.arrived <= acts[j].ticker.arrived
  }

  /** The fill used the last ticker up to its deadline, at the first one after it; or, if none had
      come by then, the first ticker of all, at the second. */
  ghost predicate PromptAt(cfg: Settings, own: seq<Ticker>, created: nat, quote: Ticker, trigger: Ticker, n: nat)
  {
    && 0 < n < |own| && own[n - 1] == quote && own[n] == trigger
    && Deadline(cfg, created) < trigger.arrived as real
    && (quote.arrived as real <= Deadline(cfg, created) || n == 1)
  }

  ghost predicate Prompt(cfg: Settings, own: seq<Ticker>, created: nat, quote: Ticker, trigger: Ticker)
  {
    exists n: nat :: PromptAt(cfg, own, created, quote, trigger, n)
  }

  ghost predicate FillsPrompt(cfg: Settings, acts: seq<Action>, fills: seq<Fill>)
  {
    forall f :: f in fills && f.trade.MarketTrade?
      ==> Prompt(cfg, Own(cfg, acts, f.order.symbol), f.trade.created, f.trade.quote, f.trade.trigger)
  }

  /** A waiting order's deadline has not been passed by a ticker that could have filled it. */
  ghost predicate InTime(cfg: Settings, own: seq<Ticker>, r: Request)
  {
    |own| <= 1 || own[|own| - 1].arrived as real <= Deadline(cfg, r.created)
  }

  ghost predicate WaitInTime(cfg: Settings, acts: seq<Action>, s: Sim)
  {
    forall r :: r in s.pendingMarket ==> InTime(cfg, Own(cfg, acts, r.order.symbol), r)
  }

  // ----- The passes -----

  lemma {:induction false} MarketPassKeeps(cfg: Settings, queue: seq<Request>, acc: Account, last: Option<Ticker>, t: Ticker)
    requires last.Some? ==> last.value.symbol.Pair?
    ensures forall r :: r in MarketPass(cfg, queue, acc, last, t).0 ==> r in queue && !(Due(cfg, r, t) && last.Some?)
  {
    if queue != [] {
      if Due(cfg, queue[0], t) && last.Some? {
        var fill := MarketFill(cfg, queue[0].order, last.value, MarketTrade(queue[0].created, last.value, t));
        MarketPassKeeps(cfg, queue[1..], Book(acc, fill), last, t);
      } else {
        MarketPassKeeps(cfg, queue[1..], acc, last, t);
      }
    }
  }

  /** The order and trade of a fill that the market pass makes of `r`. */
  ghost predicate FillOf(cfg: Settings, f: Fill, r: Request, last: Option<Ticker>, t: Ticker)
  {
    last.Some? && Due(cfg, r, t) && f.order == r.order && f.trade == MarketTrade(r.created, last.value, t)
  }

  lemma {:induction false} MarketPassFills(cfg: Settings, queue: seq<Request>, acc: Account, last: Option<Ticker>, t: Ticker)
    requires last.Some? ==> last.value.symbol.Pair?
    ensures forall f :: f in MarketPass(cfg, queue, acc, last, t).1.fills
              ==> f in acc.fills || exists r :: r in queue && FillOf(cfg, f, r, last, t)
  {
    if queue != [] {
      if Due(cfg, queue[0], t) && last.Some? {
        var fill := MarketFill(cfg, queue[0].order, last.value, MarketTrade(queue[0].created, last.value, t));
        assert FillOf(cfg, fill, queue[0], last, t);
        MarketPassFills(cfg, queue[1..], Book(acc, fill), last, t);
      } else {
        MarketPassFills(cfg, queue[1..], acc, last, t);
      }
    }
  }

  lemma {:induction false} ArrivalPassFills(cfg: Settings, queue: seq<Request>, resting: seq<Order>, acc: Account, t: Ticker)
    requires t.symbol.Pair?
    ensures forall f :: f in ArrivalPass(cfg, queue, resting, acc, t).2.fills ==> f in acc.fills || !f.trade.MarketTrade?
  {
    if queue != [] {
      if !Due(cfg, queue[0], t) {
        ArrivalPassFills(cfg, queue[1..], resting, acc, t);
      } else if Crosses(queue[0].order, t) {
        var fill := MarketFill(cfg, queue[0].order, t, ArrivalTrade(queue[0].created, t));
        ArrivalPassFills(cfg, queue[1..], resting, Book(acc, fill), t);
      } else {
        ArrivalPassFills(cfg, queue[1..], resting + [queue[0].order], acc, t);
      }
    }
  }

  lemma {:induction false} RestingPassFills(cfg: Settings, queue: seq<Order>, acc: Account, t: Ticker, behindFill: bool)
    requires t.symbol.Pair?
    ensures forall f :: f in RestingPass(cfg, queue, acc, t, behindFill).1.fills ==> f in acc.fills || !f.trade.MarketTrade?
  {
    if queue != [] {
      if Reached(queue[0], t) && !behindFill {
        RestingPassFills(cfg, queue[1..], Book(acc, RestingFill(cfg, queue[0], t)), t, true);
      } else {
        RestingPassFills(cfg, queue[1..], acc, t, false);
      }
    }
  }

  // ----- Clocks and last tickers -----

  lemma {:induction false} NowIsLatest(cfg: Settings, acts: seq<Action>, i: nat)
    requires AllLegal(cfg, acts) && Chronological(acts) && i < |acts| && acts[i].Tick?
    ensures acts[i].ticker.arrived <= Run(cfg, acts).now
    decreases |acts|
  {
    var n := |acts| - 1;
    if i < n && !acts[n].Tick? {
      NowIsLatest(cfg, acts[..n], i);
    }
  }

  lemma {:induction false} OwnTicks(cfg: Settings, acts: seq<Action>, symbol: Symbol, k: nat)
    requires k < |Own(cfg, acts, symbol)|
    ensures exists i :: 0 <= i < |acts| && acts[i] == Tick(Own(cfg, acts, symbol)[k])
  {
    var n := |acts| - 1;
    if k < |Own(cfg, acts[..n], symbol)| {
      OwnTicks(cfg, acts[..n], symbol, k);
    } else {
      assert acts[n] == Tick(Own(cfg, acts, symbol)[k]);
    }
  }

  lemma OwnBeforeNow(cfg: Settings, acts: seq<Action>, symbol: Symbol, k: nat)
    requires AllLegal(cfg, acts) && Chronological(acts) && k < |Own(cfg, acts, symbol)|
    ensures Own(cfg, acts, symbol)[k].arrived <= Run(cfg, acts).now
  {
    OwnTicks(cfg, acts, symbol, k);
    var i :| 0 <= i < |acts| && acts[i] == Tick(Own(cfg, acts, symbol)[k]);
    NowIsLatest(cfg, acts, i);
  }

  lemma {:induction false} OwnSorted(cfg: Settings, acts: seq<Action>, symbol: Symbol, j: nat, k: nat)
    requires Chronological(acts) && j <= k < |Own(cfg, acts, symbol)|
    ensures Own(cfg, acts, symbol)[j].arrived <= Own(cfg, acts, symbol)[k].arrived
  {
    var n := |acts| - 1;
    var earlier := Own(cfg, acts[..n], symbol);
    if k < |earlier| {
      OwnSorted(cfg, acts[..n], symbol, j, k);
    } else if j < k {
      OwnTicks(cfg, acts[..n], symbol, j);
    }
  }

  lemma KnownStep(cfg: Settings, s: Sim, act: Action, symbol: Symbol)
    requires Valid(s) && Legal(cfg, act)
    ensures Known(Do(cfg, s, act), symbol)
            == if act.Tick? && act.ticker.exchange == cfg.exchange && act.ticker.symbol == symbol then Some(act.ticker)
               else Known(s, symbol)
  {
  }

  /** Only a ticker of the pair on the simulated exchange adds to its tickers. */
  lemma OwnNext(cfg: Settings, acts: seq<Action>, symbol: Symbol)
    requires acts != []
    ensures var front, act := acts[..|acts| - 1], acts[|acts| - 1];
            Own(cfg, acts, symbol)
            == if act.Tick? && act.ticker.exchange == cfg.exchange && act.ticker.symbol == symbol
               then Own(cfg, front, symbol) + [act.ticker] else Own(cfg, front, symbol)
  {
  }

  lemma {:induction false} KnownIsLast(cfg: Settings, acts: seq<Action>, symbol: Symbol)
    requires AllLegal(cfg, acts)
    ensures var own := Own(cfg, acts, symbol);
            Known(Run(cfg, acts), symbol) == if own == [] then None else Some(own[|own| - 1])
  {
    if acts != [] {
      var front := acts[..|acts| - 1];
      KnownIsLast(cfg, front, symbol);
      OwnNext(cfg, acts, symbol);
      assert acts == front + [acts[|acts| - 1]];
      RunNext(cfg, front, acts[|acts| - 1]);
      KnownStep(cfg, Run(cfg, front), acts[|acts| - 1], symbol);
    }
  }

  // ----- Every run is on time -----

  lemma PromptStays(cfg: Settings, own: seq<Ticker>, own': seq<Ticker>, created: nat, quote: Ticker, trigger: Ticker)
    requires own <= own' && Prompt(cfg, own, created, quote, trigger)
    ensures Prompt(cfg, own', created, quote, trigger)
  {
    var n: nat :| PromptAt(cfg, own, created, quote, trigger, n);
    assert PromptAt(cfg, own', created, quote, trigger, n);
  }

  lemma OwnStep(cfg: Settings, acts: seq<Action>, t: Ticker, symbol: Symbol)
    requires t.exchange == cfg.exchange
    ensures var own := Own(cfg, acts, symbol);
            Own(cfg, acts + [Tick(t)], symbol) == if t.symbol == symbol then own + [t] else own
  {
  }

  lemma LastTickerPrompt(cfg: Settings, own: seq<Ticker>, r: Request, t: Ticker)
    requires own != [] && InTime(cfg, own, r) && Due(cfg, r, t)
    ensures Prompt(cfg, own + [t], r.created, own[|own| - 1], t)
  {
    assert PromptAt(cfg, own + [t], r.created, own[|own| - 1], t, |own|);
  }

  lemma NewFillPrompt(cfg: Settings, acts: seq<Action>, last: Option<Ticker>, t: Ticker, f: Fill, r: Request)
    requires t.exchange == cfg.exchange && FillOf(cfg, f, r, last, t)
    requires var own := Own(cfg, acts, t.symbol); own != [] && last.value == own[|own| - 1] && InTime(cfg, own, r)
    ensures Prompt(cfg, Own(cfg, acts + [Tick(t)], f.order.symbol), f.trade.created, f.trade.quote, f.trade.trigger)
  {
    OwnStep(cfg, acts, t, t.symbol);
    LastTickerPrompt(cfg, Own(cfg, acts, t.symbol), r, t);
  }

  /** Only the market pass makes market trades. */
  lemma TickTrades(cfg: Settings, s: Sim, t: Ticker)
    requires Valid(s) && t.symbol.Pair? && t.exchange == cfg.exchange
    ensures forall f :: f in OnBookTicker(cfg, s, t).account.fills && f.trade.MarketTrade?
              ==> f in s.account.fills || exists r :: r in s.pendingMarket && FillOf(cfg, f, r, Known(s, t.symbol), t)
  {
    var last := Known(s, t.symbol);
    var (market, acc1) := MarketPass(cfg, s.pendingMarket, s.account, last, t);
    var (arriving, resting, acc2) := ArrivalPass(cfg, s.pendingLimit, s.resting, acc1, t);
    MarketPassFills(cfg, s.pendingMarket, s.account, last, t);
    ArrivalPassFills(cfg, s.pendingLimit, s.resting, acc1, t);
    RestingPassFills(cfg, resting, acc2, t, false);
  }

  lemma TickPrompt(cfg: Settings, acts: seq<Action>, s: Sim, t: Ticker)
    requires AllLegal(cfg, acts) && s == Run(cfg, acts) && t.symbol.Pair? && t.exchange == cfg.exchange
    requires FillsPrompt(cfg, acts, s.account.fills) && WaitInTime(cfg, acts, s)
    ensures FillsPrompt(cfg, acts + [Tick(t)], OnBookTicker(cfg, s, t).account.fills)
  {
    TickTrades(cfg, s, t);
    KnownIsLast(cfg, acts, t.symbol);
    forall f | f in OnBookTicker(cfg, s, t).account.fills && f.trade.MarketTrade?
      ensures Prompt(cfg, Own(cfg, acts + [Tick(t)], f.order.symbol), f.trade.created, f.trade.quote, f.trade.trigger)
    {
      if f in s.account.fills {
        var own := Own(cfg, acts, f.order.symbol);
        OwnStep(cfg, acts, t, f.order.symbol);
        PromptStays(cfg, own, Own(cfg, acts + [Tick(t)], f.order.symbol), f.trade.created, f.trade.quote, f.trade.trigger);
      } else {
        var r :| r in s.pendingMarket && FillOf(cfg, f, r, Known(s, t.symbol), t);
        NewFillPrompt(cfg, acts, Known(s, t.symbol), t, f, r);
      }
    }
  }

  lemma TickInTime(cfg: Settings, acts: seq<Action>, t: Ticker)
    requires AllLegal(cfg, acts) && t.symbol.Pair? && t.exchange == cfg.exchange
    requires WaitInTime(cfg, acts, Run(cfg, acts))
    ensures WaitInTime(cfg, acts + [Tick(t)], OnBookTicker(cfg, Run(cfg, acts), t))
  {
    var s, next, last := Run(cfg, acts), acts + [Tick(t)], Known(Run(cfg, acts), t.symbol);
    assert next[..|acts|] == acts;
    MarketPassKeeps(cfg, s.pendingMarket, s.account, last, t);
    forall r | r in MarketPass(cfg, s.pendingMarket, s.account, last, t).0
      ensures InTime(cfg, Own(cfg, next, r.order.symbol), r)
    {
      KnownIsLast(cfg, acts, t.symbol);
      assert InTime(cfg, Own(cfg, acts, r.order.symbol), r);
    }
  }

  lemma {:induction false} RunPrompt(cfg: Settings, acts: seq<Action>)
    requires AllLegal(cfg, acts) && Chronological(acts) && cfg.latency >= 0.0 && cfg.delay >= 0.0
    ensures FillsPrompt(cfg, acts, Run(cfg, acts).account.fills) && WaitInTime(cfg, acts, Run(cfg, acts))
  {
    if acts != [] {
      var front, act := acts[..|acts| - 1], acts[|acts| - 1];
      RunPrompt(cfg, front);
      assert acts == front + [act];
      if act.Tick? && act.ticker.exchange == cfg.exchange {
        TickPrompt(cfg, front, Run(cfg, front), act.ticker);
        TickInTime(cfg, front, act.ticker);
      } else if act.Market? {
        MarketInTime(cfg, front, act);
      }
    }
  }

  lemma NewInTime(cfg: Settings, acts: seq<Action>, r: Request)
    requires AllLegal(cfg, acts) && Chronological(acts) && cfg.latency >= 0.0 && cfg.delay >= 0.0
    requires r.created == Run(cfg, acts).now
    ensures InTime(cfg, Own(cfg, acts, r.order.symbol), r)
  {
    var own := Own(cfg, acts, r.order.symbol);
    if own != [] {
      OwnBeforeNow(cfg, acts, r.order.symbol, |own| - 1);
    }
  }

  lemma MarketInTime(cfg: Settings, acts: seq<Action>, act: Action)
    requires AllLegal(cfg, acts) && Chronological(acts) && cfg.latency >= 0.0 && cfg.delay >= 0.0
    requires act.Market? && WaitInTime(cfg, acts, Run(cfg, acts))
    ensures WaitInTime(cfg, acts + [act], Do(cfg, Run(cfg, acts), act))
  {
    var s, next := Run(cfg, acts), acts + [act];
    var s' := Do(cfg, s, act);
    assert next[..|acts|] == acts;
    forall r | r in s'.pendingMarket
      ensures InTime(cfg, Own(cfg, next, r.order.symbol), r)
    {
      OwnNext(cfg, next, r.order.symbol);
      if r !in s.pendingMarket {
        NewInTime(cfg, acts, r);
      }
    }
  }

  // ----- Main results -----

  /** `quote` is the ticker before the `n`-th and `trigger` the `n`-th; exactly the tickers from
      the `n`-th on came after the deadline, unless all did: then `n` is 1. */
  ghost predicate OnTime(own: seq<Ticker>, deadline: real, quote: Ticker, trigger: Ticker, n: nat)
  {
    && 0 < n < |own| && own[n - 1] == quote && own[n] == trigger
    && (forall k :: n <= k < |own| ==> deadline < own[k].arrived as real)
    && (own[0].arrived as real <= deadline ==> forall k :: 0 <= k < n ==> own[k].arrived as real <= deadline)
    && (deadline < own[0].arrived as real ==> n == 1)
  }

  lemma PromptIsOnTime(cfg: Settings, own: seq<Ticker>, created: nat, quote: Ticker, trigger: Ticker, n: nat)
    requires forall j, k :: 0 <= j <= k < |own| ==> own[j].arrived <= own[k].arrived
    requires PromptAt(cfg, own, created, quote, trigger, n)
    ensures OnTime(own, Deadline(cfg, created), quote, trigger, n)
  {
  }

  /** If a ticker of the pair had come by the deadline, creation + 2 * latency + delay, then the
      order filled at the quote of the last such ticker, when the first later one arrived. If none
      had come, it filled at the first ticker of all, when the second arrived. */
  lemma FilledAtTheDeadline(cfg: Settings, acts: seq<Action>, f: Fill)
    requires AllLegal(cfg, acts) && Chronological(acts) && cfg.latency >= 0.0 && cfg.delay >= 0.0
    requires f in Run(cfg, acts).account.fills && f.trade.MarketTrade?
    ensures exists n: nat ::
      OnTime(Own(cfg, acts, f.order.symbol), Deadline(cfg, f.trade.created), f.trade.quote, f.trade.trigger, n)
  {
    RunPrompt(cfg, acts);
    var symbol := f.order.symbol;
    var own, deadline := Own(cfg, acts, symbol), Deadline(cfg, f.trade.created);
    assert Prompt(cfg, own, f.trade.created, f.trade.quote, f.trade.trigger);
    var n: nat :| PromptAt(cfg, own, f.trade.created, f.trade.quote, f.trade.trigger, n);
    forall j, k | 0 <= j <= k < |own|
      ensures own[j].arrived <= own[k].arrived
    {
      OwnSorted(cfg, acts, symbol, j, k);
    }
    PromptIsOnTime(cfg, own, f.trade.created, f.trade.quote, f.trade.trigger, n);
  }

  /** No market order waits past its deadline: as long as it waits, the latest ticker of its pair
      came by the deadline, unless that ticker is the only one. */
  lemma NoneOverdue(cfg: Settings, acts: seq<Action>, r: Request)
    requires AllLegal(cfg, acts) && Chronological(acts) && cfg.latency >= 0.0 && cfg.delay >= 0.0
    requires r in Run(cfg, acts).pendingMarket
    ensures var own := Own(cfg, acts, r.order.symbol);
            |own| <= 1 || own[|own| - 1].arrived as real <= Deadline(cfg, r.created)
  {
    RunPrompt(cfg, acts);
  }

  // ----- A run in which the quote comes after the deadline -----

  const INSTANT := Settings("x", 0.0, 0.0, 0.0, 0.0, map["A" := 1.0])
  const AT_FIVE := Ticker("x", Pair("A", "B"), 9.0, 11.0, 5)
  const AT_SIX := Ticker("x", Pair("A", "B"), 8.0, 10.0, 6)

  function SoldAtOnce(): Request
  {
    Request(NewOrder(1, Pair("A", "B"), Sell, 1.0, 0.0, UnknownStatus), 0)
  }

  /** Only the order waits. */
  ghost predicate OnlyOrder(s: Sim)
  {
    s.pendingMarket == [SoldAtOnce()] && s.pendingLimit == [] && s.resting == [] && s.account.fills == []
  }

  lemma OneOrderPass(cfg: Settings, r: Request, acc: Account, last: Option<Ticker>, t: Ticker)
    requires last.Some? ==> last.value.symbol.Pair?
    requires Due(cfg, r, t)
    ensures MarketPass(cfg, [r], acc, last, t)
            == if last.None? then ([r], acc)
               else ([], Book(acc, MarketFill(cfg, r.order, last.value, MarketTrade(r.created, last.value, t))))
  {
    assert [r][1..] == [] && [r] + [] == [r];
    assert MarketPass(cfg, [], acc, last, t) == ([], acc);
  }

  lemma WaitsForQuote(s: Sim)
    requires Valid(s) && OnlyOrder(s) && s.tickers == map[]
    ensures var s' := OnBookTicker(INSTANT, s, AT_FIVE);
            OnlyOrder(s') && Known(s', Pair("A", "B")) == Some(AT_FIVE)
  {
    OneOrderPass(INSTANT, SoldAtOnce(), s.account, None, AT_FIVE);
  }

  lemma FillsAtKnown(s: Sim)
    requires Valid(s) && OnlyOrder(s) && Known(s, Pair("A", "B")) == Some(AT_FIVE)
    ensures OnBookTicker(INSTANT, s, AT_SIX).account.fills
            == [MarketFill(INSTANT, SoldAtOnce().order, AT_FIVE, MarketTrade(0, AT_FIVE, AT_SIX))]
  {
    OneOrderPass(INSTANT, SoldAtOnce(), s.account, Some(AT_FIVE), AT_SIX);
  }

  lemma OrderFirst()
    ensures OnlyOrder(Run(INSTANT, [Market(Pair("A", "B"), Sell, 1.0)]))
    ensures Run(INSTANT, [Market(Pair("A", "B"), Sell, 1.0)]).tickers == map[]
  {
    RunNext(INSTANT, [], Market(Pair("A", "B"), Sell, 1.0));
    assert [] + [Market(Pair("A", "B"), Sell, 1.0)] == [Market(Pair("A", "B"), Sell, 1.0)];
  }

  /** A sale due at time 0 waits for a first quote at 5 and fills at it when the next comes at 6. */
  lemma QuoteAfterDeadline()
    ensures var acts := [Market(Pair("A", "B"), Sell, 1.0)] + [Tick(AT_FIVE)] + [Tick(AT_SIX)];
            Run(INSTANT, acts).account.fills
            == [MarketFill(INSTANT, SoldAtOnce().order, AT_FIVE, MarketTrade(0, AT_FIVE, AT_SIX))]
    ensures Deadline(INSTANT, 0) < AT_FIVE.arrived as real
  {
    var order := [Market(Pair("A", "B"), Sell, 1.0)];
    OrderFirst();
    RunNext(INSTANT, order, Tick(AT_FIVE));
    WaitsForQuote(Run(INSTANT, order));
    RunNext(INSTANT, order + [Tick(AT_FIVE)], Tick(AT_SIX));
    FillsAtKnown(Run(INSTANT, order + [Tick(AT_FIVE)]));
  }
}
