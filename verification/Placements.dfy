/** Where the simulator's orders come from and what becomes of them: every waiting, resting or
    filled order is traced back to the placement that made it, and takes effect at its own time. */
module Placements {
  import opened Wrappers
  import opened AccountBalances
  import opened Simulations
  import opened Latencies
  import Decimals

  // ----- The history -----

  /** The arrival of the last ticker of any exchange; zero before there was one. */
  function Clock(acts: seq<Action>): nat
  {
    if acts == [] then 0
    else if acts[|acts| - 1].Tick? then acts[|acts| - 1].ticker.arrived
    else Clock(acts[..|acts| - 1])
  }

  /** The number of order ids issued. */
  function Issued(acts: seq<Action>): nat
  {
    if acts == [] then 0
    else Issued(acts[..|acts| - 1]) + (if acts[|acts| - 1].Market? || acts[|acts| - 1].Limit? then 1 else 0)
  }

  /** `o` is the order of the `i`-th action, as it is queued. */
  ghost predicate PlacedBy(acts: seq<Action>, i: nat, o: Order, market: bool)
  {
    && i < |acts|
    && match acts[i]
       case Tick(_) => false
       case Market(symbol, side, quantity) =>
         market && o == Order(Decimals.Print(Issued(acts[..i]) + 1), symbol, side, quantity, 0.0, UnknownStatus, 0.0, 0.0)
       case Limit(symbol, side, quantity, price) =>
         !market && o == Order(Decimals.Print(Issued(acts[..i]) + 1), symbol, side, quantity, price, New, 0.0, 0.0)
       case Send(sent) => !market && o == sent.(status := New)
  }

  /** When the order of the `i`-th action takes effect: after twice the latency and the delay. */
  function TakesEffect(cfg: Settings, acts: seq<Action>, i: nat): real
    requires i <= |acts|
  {
    Clock(acts[..i]) as real + 2.0 * cfg.latency + cfg.delay
  }

  /** The `n`-th ticker is the first after `time`. */
  ghost predicate FirstAfter(own: seq<Ticker>, time: real, n: nat)
  {
    n < |own| && time < own[n].arrived as real && forall k :: 0 <= k < n ==> own[k].arrived as real <= time
  }

  /** The limit price is at least as near to the opposite quote as to the own side's. */
  predicate NearTouch(o: Order, t: Ticker)
  {
    match o.side
    case Sell => o.price - t.bid <= t.ask - o.price
    case Buy => t.ask - o.price <= o.price - t.bid
  }

  lemma CrossesIff(o: Order, t: Ticker)
    ensures Crosses(o, t) <==> NearTouch(o, t)
  {
  }

  // ----- What is claimed of each order -----

  /** A market order waiting since `created`. */
  ghost predicate MarketTraced(acts: seq<Action>, o: Order, created: nat)
  {
    exists i: nat :: PlacedBy(acts, i, o, true) && created == Clock(acts[..i])
  }

  /** A limit order waiting since `created`; no ticker of its pair has come after its time. */
  ghost predicate LimitWaits(cfg: Settings, acts: seq<Action>, o: Order, created: nat)
  {
    && (exists i: nat :: PlacedBy(acts, i, o, false) && created == Clock(acts[..i]))
    && forall k :: 0 <= k < |Own(cfg, acts, o.symbol)|
         ==> Own(cfg, acts, o.symbol)[k].arrived as real <= Deadline(cfg, created)
  }

  /** The limit order of the `i`-th action arrives with the `n`-th ticker of its pair, the first
      after the order's time. */
  ghost predicate ArrivesAt(cfg: Settings, acts: seq<Action>, o: Order, i: nat, n: nat)
  {
    PlacedBy(acts, i, o, false) && FirstAfter(Own(cfg, acts, o.symbol), TakesEffect(cfg, acts, i), n)
  }

  /** It arrived with the ticker `t` and was near enough to trade. */
  ghost predicate TradedOnArrival(cfg: Settings, acts: seq<Action>, o: Order, t: Ticker)
  {
    exists i: nat, n: nat ::
      ArrivesAt(cfg, acts, o, i, n) && Own(cfg, acts, o.symbol)[n] == t && NearTouch(o, t)
  }

  /** It arrived and was not near enough, so it began to rest. */
  ghost predicate RestsSinceArrival(cfg: Settings, acts: seq<Action>, o: Order)
  {
    exists i: nat, n: nat :: ArrivesAt(cfg, acts, o, i, n) && !NearTouch(o, Own(cfg, acts, o.symbol)[n])
  }

  ghost predicate FillTraced(cfg: Settings, acts: seq<Action>, f: Fill)
  {
    match f.trade
    case MarketTrade(created, _, _) => MarketTraced(acts, f.order, created)
    case ArrivalTrade(_, t) => TradedOnArrival(cfg, acts, f.order, t)
    case RestingTrade(_) => RestsSinceArrival(cfg, acts, f.order)
  }

  ghost predicate AllTraced(cfg: Settings, acts: seq<Action>, s: Sim)
  {
    && s.now == Clock(acts) && s.lastId == Issued(acts)
    && (forall r :: r in s.pendingMarket ==> MarketTraced(acts, r.order, r.created))
    && (forall r :: r in s.pendingLimit ==> LimitWaits(cfg, acts, r.order, r.created))
    && (forall o :: o in s.resting ==> RestsSinceArrival(cfg, acts, o))
    && forall f :: f in s.account.fills ==> FillTraced(cfg, acts, f)
  }

  // ----- More actions do not undo a claim -----

  lemma PlacedStays(acts: seq<Action>, act: Action, i: nat, o: Order, market: bool)
    requires PlacedBy(acts, i, o, market)
    ensures PlacedBy(acts + [act], i, o, market) && (acts + [act])[..i] == acts[..i]
  {
    assert (acts + [act])[..i] == acts[..i] && (acts + [act])[i] == acts[i];
  }

  lemma OwnGrows(cfg: Settings, acts: seq<Action>, act: Action, symbol: Symbol)
    ensures Own(cfg, acts, symbol) <= Own(cfg, acts + [act], symbol)
  {
    OwnNext(cfg, acts + [act], symbol);
    assert (acts + [act])[..|acts|] == acts;
  }

  lemma MarketStays(acts: seq<Action>, act: Action, o: Order, created: nat)
    requires MarketTraced(acts, o, created)
    ensures MarketTraced(acts + [act], o, created)
  {
    var i: nat :| PlacedBy(acts, i, o, true) && created == Clock(acts[..i]);
    PlacedStays(acts, act, i, o, true);
  }

  lemma ArrivalStays(cfg: Settings, acts: seq<Action>, act: Action, o: Order, i: nat, n: nat)
    requires ArrivesAt(cfg, acts, o, i, n)
    ensures ArrivesAt(cfg, acts + [act], o, i, n)
    ensures n < |Own(cfg, acts + [act], o.symbol)| && Own(cfg, acts + [act], o.symbol)[n] == Own(cfg, acts, o.symbol)[n]
  {
    PlacedStays(acts, act, i, o, false);
    OwnGrows(cfg, acts, act, o.symbol);
  }

  lemma RestStays(cfg: Settings, acts: seq<Action>, act: Action, o: Order)
    requires RestsSinceArrival(cfg, acts, o)
    ensures RestsSinceArrival(cfg, acts + [act], o)
  {
    var i: nat, n: nat :| ArrivesAt(cfg, acts, o, i, n) && !NearTouch(o, Own(cfg, acts, o.symbol)[n]);
    ArrivalStays(cfg, acts, act, o, i, n);
  }

  lemma FillStays(cfg: Settings, acts: seq<Action>, act: Action, f: Fill)
    requires FillTraced(cfg, acts, f)
    ensures FillTraced(cfg, acts + [act], f)
  {
    match f.trade
    case MarketTrade(created, _, _) => MarketStays(acts, act, f.order, created);
    case ArrivalTrade(_, t) =>
      var i: nat, n: nat :|
        ArrivesAt(cfg, acts, f.order, i, n) && Own(cfg, acts, f.order.symbol)[n] == t && NearTouch(f.order, t);
      ArrivalStays(cfg, acts, act, f.order, i, n);
    case RestingTrade(_) => RestStays(cfg, acts, act, f.order);
  }

  /** A limit order goes on waiting if the next action brings no ticker of its pair after its time. */
  lemma WaitStays(cfg: Settings, acts: seq<Action>, act: Action, o: Order, created: nat)
    requires LimitWaits(cfg, acts, o, created)
    requires (act.Tick? && act.ticker.exchange == cfg.exchange && act.ticker.symbol == o.symbol)
             ==> act.ticker.arrived as real <= Deadline(cfg, created)
    ensures LimitWaits(cfg, acts + [act], o, created)
  {
    var i: nat :| PlacedBy(acts, i, o, false) && created == Clock(acts[..i]);
    PlacedStays(acts, act, i, o, false);
    OwnNext(cfg, acts + [act], o.symbol);
    assert (acts + [act])[..|acts|] == acts;
  }

  /** The first ticker after its time is the one with which a waiting limit order arrives. */
  lemma WaitEnds(cfg: Settings, acts: seq<Action>, t: Ticker, r: Request) returns (i: nat)
    requires LimitWaits(cfg, acts, r.order, r.created) && Due(cfg, r, t) && t.exchange == cfg.exchange
    ensures var n := |Own(cfg, acts, r.order.symbol)|;
            ArrivesAt(cfg, acts + [Tick(t)], r.order, i, n) && Own(cfg, acts + [Tick(t)], r.order.symbol)[n] == t
  {
    i :| PlacedBy(acts, i, r.order, false) && r.created == Clock(acts[..i]);
    PlacedStays(acts, Tick(t), i, r.order, false);
    OwnStep(cfg, acts, t, r.order.symbol);
  }

  // ----- The passes, order by order -----

  lemma {:induction false} ArrivalParts(cfg: Settings, queue: seq<Request>, resting: seq<Order>, acc: Account, t: Ticker)
    requires t.symbol.Pair?
    ensures var (kept, resting', acc') := ArrivalPass(cfg, queue, resting, acc, t);
            && (forall r :: r in kept ==> r in queue && !Due(cfg, r, t))
            && (forall o :: o in resting' ==> o in resting || exists r :: BeginsToRest(cfg, queue, t, r, o))
            && (forall f :: f in acc'.fills ==> f in acc.fills || exists r :: FillsOnArrival(cfg, queue, t, r, f))
  {
    if queue != [] {
      var r := queue[0];
      if !Due(cfg, r, t) {
        ArrivalParts(cfg, queue[1..], resting, acc, t);
      } else if Crosses(r.order, t) {
        var fill := MarketFill(cfg, r.order, t, ArrivalTrade(r.created, t));
        assert FillsOnArrival(cfg, queue, t, r, fill);
        ArrivalParts(cfg, queue[1..], resting, Book(acc, fill), t);
      } else {
        assert BeginsToRest(cfg, queue, t, r, r.order);
        ArrivalParts(cfg, queue[1..], resting + [r.order], acc, t);
      }
      LaterInQueue(cfg, queue, t);
    }
  }

  ghost predicate BeginsToRest(cfg: Settings, queue: seq<Request>, t: Ticker, r: Request, o: Order)
  {
    r in queue && Due(cfg, r, t) && !Crosses(r.order, t) && o == r.order
  }

  ghost predicate FillsOnArrival(cfg: Settings, queue: seq<Request>, t: Ticker, r: Request, f: Fill)
  {
    r in queue && Due(cfg, r, t) && Crosses(r.order, t) && f.order == r.order && f.trade == ArrivalTrade(r.created, t)
  }

  lemma LaterInQueue(cfg: Settings, queue: seq<Request>, t: Ticker)
    requires queue != []
    ensures forall r, o :: BeginsToRest(cfg, queue[1..], t, r, o) ==> BeginsToRest(cfg, queue, t, r, o)
    ensures forall r, f :: FillsOnArrival(cfg, queue[1..], t, r, f) ==> FillsOnArrival(cfg, queue, t, r, f)
  {
  }

  lemma {:induction false} RestingParts(cfg: Settings, queue: seq<Order>, acc: Account, t: Ticker, behindFill: bool)
    requires t.symbol.Pair?
    ensures var (kept, acc') := RestingPass(cfg, queue, acc, t, behindFill);
            && (forall o :: o in kept ==> o in queue)
            && (forall f :: f in acc'.fills ==> f in acc.fills || (f.order in queue && f.trade == RestingTrade(t)))
  {
    if queue != [] {
      assert queue[0] in queue && forall o :: o in queue[1..] ==> o in queue;
      if Reached(queue[0], t) && !behindFill {
        RestingParts(cfg, queue[1..], Book(acc, RestingFill(cfg, queue[0], t)), t, true);
      } else {
        RestingParts(cfg, queue[1..], acc, t, false);
      }
    }
  }

  // ----- One ticker -----

  lemma ArrivalsTraced(cfg: Settings, acts: seq<Action>, queue: seq<Request>, resting: seq<Order>, acc: Account, t: Ticker)
    requires t.exchange == cfg.exchange && t.symbol.Pair?
    requires forall r :: r in queue ==> LimitWaits(cfg, acts, r.order, r.created)
    requires forall o :: o in resting ==> RestsSinceArrival(cfg, acts, o)
    requires forall f :: f in acc.fills ==> FillTraced(cfg, acts + [Tick(t)], f)
    ensures var (kept, resting', acc') := ArrivalPass(cfg, queue, resting, acc, t);
            && (forall r :: r in kept ==> LimitWaits(cfg, acts + [Tick(t)], r.order, r.created))
            && (forall o :: o in resting' ==> RestsSinceArrival(cfg, acts + [Tick(t)], o))
            && (forall f :: f in acc'.fills ==> FillTraced(cfg, acts + [Tick(t)], f))
  {
    var (kept, resting', acc') := ArrivalPass(cfg, queue, resting, acc, t);
    ArrivalParts(cfg, queue, resting, acc, t);
    forall r | r in kept
      ensures LimitWaits(cfg, acts + [Tick(t)], r.order, r.created)
    {
      WaitStays(cfg, acts, Tick(t), r.order, r.created);
    }
    forall o | o in resting'
      ensures RestsSinceArrival(cfg, acts + [Tick(t)], o)
    {
      if o in resting {
        RestStays(cfg, acts, Tick(t), o);
      } else {
        var r :| BeginsToRest(cfg, queue, t, r, o);
        var i := WaitEnds(cfg, acts, t, r);
        CrossesIff(o, t);
      }
    }
    forall f | f in acc'.fills
      ensures FillTraced(cfg, acts + [Tick(t)], f)
    {
      if f !in acc.fills {
        var r :| FillsOnArrival(cfg, queue, t, r, f);
        var i := WaitEnds(cfg, acts, t, r);
        CrossesIff(r.order, t);
      }
    }
  }

  lemma MarketsTraced(cfg: Settings, acts: seq<Action>, queue: seq<Request>, acc: Account, last: Option<Ticker>, t: Ticker)
    requires last.Some? ==> last.value.symbol.Pair?
    requires forall r :: r in queue ==> MarketTraced(acts, r.order, r.created)
    requires forall f :: f in acc.fills ==> FillTraced(cfg, acts, f)
    ensures var (kept, acc') := MarketPass(cfg, queue, acc, last, t);
            && (forall r :: r in kept ==> MarketTraced(acts + [Tick(t)], r.order, r.created))
            && (forall f :: f in acc'.fills ==> FillTraced(cfg, acts + [Tick(t)], f))
  {
    var (kept, acc') := MarketPass(cfg, queue, acc, last, t);
    MarketPassKeeps(cfg, queue, acc, last, t);
    MarketPassFills(cfg, queue, acc, last, t);
    forall r | r in kept
      ensures MarketTraced(acts + [Tick(t)], r.order, r.created)
    {
      MarketStays(acts, Tick(t), r.order, r.created);
    }
    forall f | f in acc'.fills
      ensures FillTraced(cfg, acts + [Tick(t)], f)
    {
      if f in acc.fills {
        FillStays(cfg, acts, Tick(t), f);
      } else {
        var r :| r in queue && FillOf(cfg, f, r, last, t);
        MarketStays(acts, Tick(t), r.order, r.created);
      }
    }
  }

  lemma ClockTicks(acts: seq<Action>, act: Action)
    ensures Clock(acts + [act]) == if act.Tick? then act.ticker.arrived else Clock(acts)
    ensures Issued(acts + [act]) == Issued(acts) + if act.Market? || act.Limit? then 1 else 0
  {
    assert (acts + [act])[..|acts|] == acts;
  }

  lemma OwnTickTraced(cfg: Settings, acts: seq<Action>, s: Sim, t: Ticker)
    requires Simulations.Valid(s) && AllTraced(cfg, acts, s) && t.exchange == cfg.exchange && t.symbol.Pair?
    ensures AllTraced(cfg, acts + [Tick(t)], OnBookTicker(cfg, s, t))
  {
    var last := Known(s, t.symbol);
    var (market, acc1) := MarketPass(cfg, s.pendingMarket, s.account, last, t);
    MarketsTraced(cfg, acts, s.pendingMarket, s.account, last, t);
    var (arriving, resting, acc2) := ArrivalPass(cfg, s.pendingLimit, s.resting, acc1, t);
    ArrivalsTraced(cfg, acts, s.pendingLimit, s.resting, acc1, t);
    RestingParts(cfg, resting, acc2, t, false);
    ClockTicks(acts, Tick(t));
  }

  // ----- The other actions -----

  /** Nothing becomes of the orders; only the clock may move. */
  lemma QuietTraced(cfg: Settings, acts: seq<Action>, s: Sim, act: Action)
    requires AllTraced(cfg, acts, s) && (act.Tick? ==> act.ticker.exchange != cfg.exchange)
    ensures var s' := s.(now := Clock(acts + [act]), lastId := Issued(acts + [act])); AllTraced(cfg, acts + [act], s')
  {
    forall r | r in s.pendingMarket
      ensures MarketTraced(acts + [act], r.order, r.created)
    {
      MarketStays(acts, act, r.order, r.created);
    }
    forall r | r in s.pendingLimit
      ensures LimitWaits(cfg, acts + [act], r.order, r.created)
    {
      WaitStays(cfg, acts, act, r.order, r.created);
    }
    forall o | o in s.resting
      ensures RestsSinceArrival(cfg, acts + [act], o)
    {
      RestStays(cfg, acts, act, o);
    }
    forall f | f in s.account.fills
      ensures FillTraced(cfg, acts + [act], f)
    {
      FillStays(cfg, acts, act, f);
    }
  }

  lemma JustPlaced(acts: seq<Action>, act: Action, o: Order, market: bool)
    requires PlacedBy([act], 0, o.(id := if act.Send? then o.id else Decimals.Print(1)), market)
    requires act.Send? || o.id == Decimals.Print(Issued(acts) + 1)
    ensures PlacedBy(acts + [act], |acts|, o, market) && (acts + [act])[..|acts|] == acts
  {
    assert (acts + [act])[..|acts|] == acts && (acts + [act])[|acts|] == act;
    assert [act][..0] == [];
  }

  lemma NewLimitWaits(cfg: Settings, acts: seq<Action>, act: Action, o: Order)
    requires AllLegal(cfg, acts) && Chronological(acts) && cfg.latency >= 0.0 && cfg.delay >= 0.0
    requires !act.Tick? && PlacedBy(acts + [act], |acts|, o, false) && Run(cfg, acts).now == Clock(acts)
    ensures LimitWaits(cfg, acts + [act], o, Clock(acts))
  {
    assert (acts + [act])[..|acts|] == acts;
    OwnNext(cfg, acts + [act], o.symbol);
    forall k | 0 <= k < |Own(cfg, acts, o.symbol)|
      ensures Own(cfg, acts, o.symbol)[k].arrived as real <= Deadline(cfg, Clock(acts))
    {
      OwnBeforeNow(cfg, acts, o.symbol, k);
    }
  }

  lemma PlacementTraced(cfg: Settings, acts: seq<Action>, act: Action)
    requires AllLegal(cfg, acts) && Legal(cfg, act) && Chronological(acts) && cfg.latency >= 0.0 && cfg.delay >= 0.0
    requires !act.Tick? && AllTraced(cfg, acts, Run(cfg, acts))
    ensures AllTraced(cfg, acts + [act], Do(cfg, Run(cfg, acts), act))
  {
    var s := Run(cfg, acts);
    QuietTraced(cfg, acts, s, act);
    ClockTicks(acts, act);
    match act
    case Market(symbol, side, quantity) =>
      var o := NewOrder(s.lastId + 1, symbol, side, quantity, 0.0, UnknownStatus);
      JustPlaced(acts, act, o, true);
      assert MarketTraced(acts + [act], o, s.now);
    case Limit(symbol, side, quantity, price) =>
      var o := NewOrder(s.lastId + 1, symbol, side, quantity, price, New);
      JustPlaced(acts, act, o, false);
      NewLimitWaits(cfg, acts, act, o);
    case Send(sent) =>
      JustPlaced(acts, act, sent.(status := New), false);
      NewLimitWaits(cfg, acts, act, sent.(status := New));
  }

  lemma {:induction false} RunTraced(cfg: Settings, acts: seq<Action>)
    requires AllLegal(cfg, acts) && Chronological(acts) && cfg.latency >= 0.0 && cfg.delay >= 0.0
    ensures AllTraced(cfg, acts, Run(cfg, acts))
  {
    if acts != [] {
      var front, act := acts[..|acts| - 1], acts[|acts| - 1];
      assert acts == front + [act];
      RunTraced(cfg, front);
      RunNext(cfg, front, act);
      if !act.Tick? {
        PlacementTraced(cfg, front, act);
      } else if act.ticker.exchange == cfg.exchange {
        OwnTickTraced(cfg, front, Run(cfg, front), act.ticker);
      } else {
        QuietTraced(cfg, front, Run(cfg, front), act);
        ClockTicks(front, act);
      }
    }
  }

  // ----- Main results -----

  /** A market order that filled was placed by some action, with its quantity; counted from the
      last ticker before that action, it filled at the last quote of its pair up to its time, on
      the first one after, or else at the first quote of all, on the second. */
  lemma MarketOrderFate(cfg: Settings, acts: seq<Action>, f: Fill)
    requires AllLegal(cfg, acts) && Chronological(acts) && cfg.latency >= 0.0 && cfg.delay >= 0.0
    requires f in Run(cfg, acts).account.fills && f.trade.MarketTrade?
    ensures exists i: nat, n: nat ::
              PlacedBy(acts, i, f.order, true)
              && OnTime(Own(cfg, acts, f.order.symbol), TakesEffect(cfg, acts, i), f.trade.quote, f.trade.trigger, n)
  {
    RunTraced(cfg, acts);
    FilledAtTheDeadline(cfg, acts, f);
    assert FillTraced(cfg, acts, f);
    var i: nat :| PlacedBy(acts, i, f.order, true) && f.trade.created == Clock(acts[..i]);
    var n: nat :|
      OnTime(Own(cfg, acts, f.order.symbol), Deadline(cfg, f.trade.created), f.trade.quote, f.trade.trigger, n);
    assert Deadline(cfg, f.trade.created) == TakesEffect(cfg, acts, i);
  }

  /** A limit order arrives with the first ticker of its pair after its time. Those that fill there
      have their price at least as near to the opposite quote as to their own side's; those that
      rest, or fill later, do not; and one that still waits has seen no ticker after its time. */
  lemma LimitOrderFate(cfg: Settings, acts: seq<Action>)
    requires AllLegal(cfg, acts) && Chronological(acts) && cfg.latency >= 0.0 && cfg.delay >= 0.0
    ensures var s := Run(cfg, acts);
            && (forall f :: f in s.account.fills && f.trade.ArrivalTrade?
                  ==> TradedOnArrival(cfg, acts, f.order, f.trade.ticker))
            && (forall f :: f in s.account.fills && f.trade.RestingTrade? ==> RestsSinceArrival(cfg, acts, f.order))
            && (forall o :: o in s.resting ==> RestsSinceArrival(cfg, acts, o))
            && (forall r :: r in s.pendingLimit ==> LimitWaits(cfg, acts, r.order, r.created))
  {
    RunTraced(cfg, acts);
  }

  // ----- The order of fills -----

  lemma {:induction false} MarketAppends(cfg: Settings, queue: seq<Request>, acc: Account, last: Option<Ticker>, t: Ticker)
    returns (more: seq<Fill>)
    requires last.Some? ==> last.value.symbol.Pair?
    ensures MarketPass(cfg, queue, acc, last, t).1.fills == acc.fills + more
    ensures forall f :: f in more ==> f.trade.MarketTrade? && f.trade.trigger == t
  {
    more := [];
    if queue != [] {
      if Due(cfg, queue[0], t) && last.Some? {
        var fill := MarketFill(cfg, queue[0].order, last.value, MarketTrade(queue[0].created, last.value, t));
        more := MarketAppends(cfg, queue[1..], Book(acc, fill), last, t);
        more := [fill] + more;
      } else {
        more := MarketAppends(cfg, queue[1..], acc, last, t);
      }
    }
  }

  lemma {:induction false} ArrivalAppends(cfg: Settings, queue: seq<Request>, resting: seq<Order>, acc: Account, t: Ticker)
    returns (more: seq<Fill>)
    requires t.symbol.Pair?
    ensures ArrivalPass(cfg, queue, resting, acc, t).2.fills == acc.fills + more
    ensures forall f :: f in more ==> f.trade.ArrivalTrade? && f.trade.ticker == t
  {
    more := [];
    if queue != [] {
      if !Due(cfg, queue[0], t) {
        more := ArrivalAppends(cfg, queue[1..], resting, acc, t);
      } else if Crosses(queue[0].order, t) {
        var fill := MarketFill(cfg, queue[0].order, t, ArrivalTrade(queue[0].created, t));
        more := ArrivalAppends(cfg, queue[1..], resting, Book(acc, fill), t);
        more := [fill] + more;
      } else {
        more := ArrivalAppends(cfg, queue[1..], resting + [queue[0].order], acc, t);
      }
    }
  }

  lemma {:induction false} RestingAppends(cfg: Settings, queue: seq<Order>, acc: Account, t: Ticker, behindFill: bool)
    returns (more: seq<Fill>)
    requires t.symbol.Pair?
    ensures RestingPass(cfg, queue, acc, t, behindFill).1.fills == acc.fills + more
    ensures forall f :: f in more ==> f.trade == RestingTrade(t)
  {
    more := [];
    if queue != [] {
      if Reached(queue[0], t) && !behindFill {
        more := RestingAppends(cfg, queue[1..], Book(acc, RestingFill(cfg, queue[0], t)), t, true);
        more := [RestingFill(cfg, queue[0], t)] + more;
      } else {
        more := RestingAppends(cfg, queue[1..], acc, t, false);
      }
    }
  }

  /** On one ticker market orders fill first, then limit orders that arrive, then resting ones. */
  lemma FillsInOrder(cfg: Settings, s: Sim, t: Ticker) returns (market: seq<Fill>, arrived: seq<Fill>, rested: seq<Fill>)
    requires Simulations.Valid(s) && t.symbol.Pair? && t.exchange == cfg.exchange
    ensures OnBookTicker(cfg, s, t).account.fills == s.account.fills + market + arrived + rested
    ensures forall f :: f in market ==> f.trade.MarketTrade? && f.trade.trigger == t
    ensures forall f :: f in arrived ==> f.trade.ArrivalTrade? && f.trade.ticker == t
    ensures forall f :: f in rested ==> f.trade == RestingTrade(t)
  {
    var (kept, acc1) := MarketPass(cfg, s.pendingMarket, s.account, Known(s, t.symbol), t);
    market := MarketAppends(cfg, s.pendingMarket, s.account, Known(s, t.symbol), t);
    var (arriving, resting, acc2) := ArrivalPass(cfg, s.pendingLimit, s.resting, acc1, t);
    arrived := ArrivalAppends(cfg, s.pendingLimit, s.resting, acc1, t);
    rested := RestingAppends(cfg, resting, acc2, t, false);
  }

  // ----- Acceptance of limit orders -----

  /** What the fills have left of an asset. */
  function Left(cfg: Settings, fills: seq<Fill>, a: Asset): real
  {
    Balance(cfg.initial, map[]).Total(a) + Moved(fills, a)
  }

  lemma PlaceLimitIff(
      s: Sim, symbol: Symbol, side: OrderSide, quantity: real, price: real, base: real, quote: real)
    requires symbol.Pair? && s.account.balance.locked == map[]
    requires s.account.balance.Total(symbol.base) == base && s.account.balance.Total(symbol.quote) == quote
    ensures var s' := PlaceLimit(s, symbol, side, quantity, price);
            if (if side.Sell? then quantity <= base else quantity * price <= quote)
            then |s'.accepted| == |s.accepted| + 1 && |s'.pendingLimit| == |s.pendingLimit| + 1
            else s' == s.(lastId := s.lastId + 1)
  {
  }

  /** After any run a limit order is accepted exactly if what the fills have left of the asset it
      gives covers it: the quantity of the base asset, or quantity times limit of the quote asset.
      Open orders make no difference. */
  lemma AcceptedIff(cfg: Settings, acts: seq<Action>, symbol: Symbol, side: OrderSide, quantity: real, price: real)
    requires AllLegal(cfg, acts) && symbol.Pair?
    ensures var s, s' := Run(cfg, acts), Do(cfg, Run(cfg, acts), Limit(symbol, side, quantity, price));
            if (if side.Sell? then quantity <= Left(cfg, s.account.fills, symbol.base)
                else quantity * price <= Left(cfg, s.account.fills, symbol.quote))
            then |s'.accepted| == |s.accepted| + 1 && |s'.pendingLimit| == |s.pendingLimit| + 1
            else s' == s.(lastId := s.lastId + 1)
  {
    var s := Run(cfg, acts);
    RunLeft(cfg, acts, symbol.base);
    RunLeft(cfg, acts, symbol.quote);
    PlaceLimitIff(s, symbol, side, quantity, price, Left(cfg, s.account.fills, symbol.base),
                  Left(cfg, s.account.fills, symbol.quote));
  }

  lemma RunLeft(cfg: Settings, acts: seq<Action>, a: Asset)
    requires AllLegal(cfg, acts)
    ensures Run(cfg, acts).account.balance.Total(a) == Left(cfg, Run(cfg, acts).account.fills, a)
    ensures Run(cfg, acts).account.balance.locked == map[]
  {
    Conservation(cfg, acts, NewOrder(0, Unknown, Buy, 0.0, 0.0, New));
  }
}
