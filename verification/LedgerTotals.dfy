/** What the operations of the account manager do to the total balances and to the stored orders. */
module LedgerTotals {
  import opened Wrappers
  import opened AccountBalances
  import opened Ledgers

  /** What trading `quantity` at `price` adds to the total of `a`. */
  function Signed(symbol: Symbol, side: OrderSide, quantity: real, price: real, a: Asset): real
    requires symbol.Pair?
  {
    var base, quote := if a == symbol.base then quantity else 0.0, if a == symbol.quote then quantity * price else 0.0;
    if side.Buy? then base - quote else quote - base
  }

  // ----- One update -----

  /** An own order reported as filled trades all of its quantity at its own price. */
  function OwnTrade(l: Ledger, u: Order, a: Asset): real
    requires Valid(l)
  {
    if u.symbol.Pair? && u.id in l.our && u.status.Filled? then
      var o := l.our[u.id];
      Signed(o.symbol, o.side, o.quantity, o.price, a)
    else 0.0
  }

  /** An external order trades what the report that ends it says, whatever the kind of its end. */
  function ExternalTrade(l: Ledger, u: Order, a: Asset): real
    requires Valid(l)
  {
    if u.id in l.external && u.status in {Filled, Canceled, Expired, Rejected} then
      Signed(l.external[u.id].symbol, l.external[u.id].side, u.quantity, u.price, a)
    else 0.0
  }

  lemma TradeMoves(b: Balance, o: Order, price: real, a: Asset)
    requires o.symbol.Pair? && o.cost == o.executed * price
    ensures Close(b, o).Total(a) == b.Total(a) + Signed(o.symbol, o.side, o.executed, price, a)
  {
  }

  lemma HandleExternalTotals(l: Ledger, u: Order, a: Asset)
    requires Valid(l) && u.symbol.Pair?
    ensures HandleExternal(l, u).balance.Total(a) == l.balance.Total(a) + ExternalTrade(l, u, a)
  {
    if u.id in l.external && u.status in {Filled, Canceled, Expired, Rejected} {
      TradeMoves(l.balance, ClosedExternal(l.external[u.id], u), u.price, a);
    }
  }

  lemma UpdateTotals(l: Ledger, u: Order, a: Asset)
    requires Valid(l)
    ensures OnOrderUpdate(l, u).balance.Total(a)
            == l.balance.Total(a) + OwnTrade(l, u, a)
               + if u.symbol.Pair? && u.id !in l.our then ExternalTrade(l, u, a) else 0.0
  {
    if u.symbol.Pair? && u.id !in l.our {
      HandleExternalTotals(l, u, a);
    } else if u.symbol.Pair? && u.status.Filled? {
      TradeMoves(l.balance, FilledOur(l.our[u.id]), l.our[u.id].price, a);
    }
  }

  /** Any report on an own order other than that it was filled leaves every total as it was; a
      cancellation or an expiry releases what was locked and books nothing. */
  lemma OnlyFillsMoveTotals(l: Ledger, u: Order, a: Asset)
    requires Valid(l) && u.id in l.our
    ensures !u.status.Filled? ==> OnOrderUpdate(l, u).balance.Total(a) == l.balance.Total(a)
    ensures u.symbol.Pair? && u.status.Filled? ==>
              var o := l.our[u.id];
              OnOrderUpdate(l, u).balance.Total(a) == l.balance.Total(a) + Signed(o.symbol, o.side, o.quantity, o.price, a)
    ensures u.symbol.Pair? && (u.status.Canceled? || u.status.Expired?) ==>
              OnOrderUpdate(l, u).balance.Locked(a) == l.balance.Locked(a) - Share(l.our[u.id], a)
  {
    UpdateTotals(l, u, a);
    if u.symbol.Pair? && (u.status.Canceled? || u.status.Expired?) {
      BalanceLocks(l.balance, l.our[u.id].(status := u.status), a);
    }
  }

  /** What is stored of an own order after a report that does not end it. Only a NEW report changes
      its terms; the executed quantity changes with NEW and PARTIALLY_FILLED reports; the status is
      the one reported; all other orders stay. */
  lemma StoredAfterUpdate(l: Ledger, u: Order, id: string)
    requires Valid(l) && u.symbol.Pair? && u.id in l.our && !Terminal(u.status)
    ensures var l' := OnOrderUpdate(l, u);
            && l'.external == l.external && l'.balance == l.balance && l'.our.Keys == l.our.Keys
            && (id in l.our && id != u.id ==> l'.our[id] == l.our[id])
            && var o, o' := l.our[u.id], l'.our[u.id];
            && o'.status == u.status
            && (u.status.New? ==> o' == u)
            && (!u.status.New? ==> o'.symbol == o.symbol && o'.side == o.side && o'.quantity == o.quantity
                                   && o'.price == o.price && o'.cost == o.cost)
            && o'.executed == if u.status.New? || u.status.PartiallyFilled? then u.executed else o.executed
  {
  }

  // ----- Whole runs -----

  /** What the open orders that an initialisation finds trade, should some of them have ended. */
  function OpenTrades(l: Ledger, orders: seq<Order>, a: Asset): real
    requires Valid(l)
  {
    if orders == [] then 0.0
    else
      var front, o := orders[..|orders| - 1], orders[|orders| - 1];
      OpenTrades(l, front, a) + (if o.symbol.Pair? then ExternalTrade(Reopen(l, front), o, a) else 0.0)
  }

  lemma {:induction false} ReopenTotals(l: Ledger, orders: seq<Order>, a: Asset)
    requires Valid(l)
    ensures Reopen(l, orders).balance.Total(a) == l.balance.Total(a) + OpenTrades(l, orders, a)
  {
    if orders != [] {
      var front, o := orders[..|orders| - 1], orders[|orders| - 1];
      ReopenTotals(l, front, a);
      if o.symbol.Pair? {
        HandleExternalTotals(Reopen(l, front), o, a);
      }
    }
  }

  /** The total of `a` that an action brings from the exchange, if it brings one. */
  function Reported(act: Action, a: Asset): Option<real>
  {
    match act
    case Totals(total) => if a in total then Some(total[a]) else None
    case Refresh(fetched) => Some(fetched.Total(a))
    case _ => None
  }

  function Traded(l: Ledger, act: Action, a: Asset): real
    requires Valid(l)
  {
    match act
    case Open(orders) => OpenTrades(l, orders, a)
    case Update(u) => OwnTrade(l, u, a) + (if u.symbol.Pair? && u.id !in l.our then ExternalTrade(l, u, a) else 0.0)
    case _ => 0.0
  }

  /** The total of `a` last reported or fetched; zero before there was any. */
  function LastReported(acts: seq<Action>, n: nat, a: Asset): real
    requires n <= |acts|
  {
    if n == 0 then 0.0
    else if Reported(acts[n - 1], a).Some? then Reported(acts[n - 1], a).value
    else LastReported(acts, n - 1, a)
  }

  /** What has been traded of `a` since then. */
  ghost function TradedSince(ls: seq<Ledger>, acts: seq<Action>, n: nat, a: Asset): real
    requires Run(ls, acts) && n <= |acts|
  {
    if n == 0 || Reported(acts[n - 1], a).Some? then 0.0
    else TradedSince(ls, acts, n - 1, a) + Traded(ls[n - 1], acts[n - 1], a)
  }

  lemma StepTotals(l: Ledger, act: Action, l': Ledger, a: Asset)
    requires Valid(l) && Step(l, act, l')
    ensures l'.balance.Total(a)
            == if Reported(act, a).Some? then Reported(act, a).value else l.balance.Total(a) + Traded(l, act, a)
  {
    match act
    case Open(orders) => ReopenTotals(l, orders, a);
    case Update(u) => UpdateTotals(l, u, a);
    case _ =>
  }

  /** Over every run from the empty manager, each total is the one last reported or fetched, plus
      what own orders have traded since by being filled, quantity for quantity times price, plus
      what the reports that ended external orders said. */
  lemma {:induction false} TotalsAddUp(ls: seq<Ledger>, acts: seq<Action>, n: nat, a: Asset)
    requires Run(ls, acts) && n <= |acts|
    ensures ls[n].balance.Total(a) == LastReported(acts, n, a) + TradedSince(ls, acts, n, a)
  {
    if n > 0 {
      TotalsAddUp(ls, acts, n - 1, a);
      StepTotals(ls[n - 1], acts[n - 1], ls[n], a);
    }
  }

  /** The account counts as synced from the first placement, refused or not, or refresh on. */
  lemma {:induction false} SyncedIff(ls: seq<Ledger>, acts: seq<Action>, n: nat)
    requires Run(ls, acts) && n <= |acts|
    ensures ls[n].synced <==> exists i :: 0 <= i < n && (acts[i].Placed? || acts[i].Refused? || acts[i].Refresh?)
  {
    if n > 0 {
      SyncedIff(ls, acts, n - 1);
      StepSynced(ls[n - 1], acts[n - 1], ls[n]);
    }
  }

  lemma {:induction false} ReopenSynced(l: Ledger, orders: seq<Order>)
    requires Valid(l)
    ensures Reopen(l, orders).synced == l.synced
  {
    if orders != [] {
      ReopenSynced(l, orders[..|orders| - 1]);
    }
  }

  lemma StepSynced(l: Ledger, act: Action, l': Ledger)
    requires Valid(l) && Step(l, act, l')
    ensures l'.synced <==> l.synced || act.Placed? || act.Refused? || act.Refresh?
  {
    if act.Open? {
      ReopenSynced(l, act.orders);
    }
  }
}
