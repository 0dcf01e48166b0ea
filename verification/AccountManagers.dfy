/** The account manager: the ledger of module Ledgers kept in mutable maps. Each method runs
    under the order mutex, so each is one step. */
module AccountManagers {
  import opened Wrappers
  import opened AccountBalances
  import opened Ledgers

  class AccountManagerImpl {
    var externalOrders: map<string, Order>
    var ourOrders: map<string, Order>
    const accountBalance: AccountBalance
    var isAccountSynced: bool

    ghost function State(): Ledger
      reads this, accountBalance
    {
      Ledger(ourOrders, externalOrders, accountBalance.Value(), isAccountSynced)
    }

    ghost predicate Ready()
      reads this, accountBalance
    {
      Valid(State())
    }

    constructor ()
      ensures Ready() && fresh(accountBalance) && State() == EMPTY_LEDGER
    {
      externalOrders, ourOrders, isAccountSynced := map[], map[], false;
      accountBalance := new AccountBalance(NO_BALANCE);
    }

    /** `openOrders` is the exchange's answer to the request for the open orders. */
    method Initialize(openOrders: seq<Order>)
      requires Ready()
      modifies this, accountBalance
      ensures Ready()
      ensures Step(old(State()), Open(openOrders), State())
    {
      externalOrders := map[];
      for i := 0 to |openOrders|
        invariant Ready()
        invariant State() == Reopen(old(State()), openOrders[..i])
      {
        assert openOrders[..i + 1][..i] == openOrders[..i];
        if openOrders[i].symbol.Unknown? {
          continue;
        }
        HandleExternalOrder(openOrders[i]);
      }
      assert openOrders[..|openOrders|] == openOrders;
    }

    /** `fetched` is the exchange's answer to the request for the balances. */
    method RefreshAccountBalance(fetched: Balance)
      requires Ready()
      modifies this`isAccountSynced, accountBalance
      ensures Ready()
      ensures Step(old(State()), Refresh(fetched), State())
    {
      accountBalance.Assign(fetched);
      LockAll(externalOrders);
      LockAll(ourOrders);
      isAccountSynced := true;
    }

    /** Adds what the orders lock, in whatever order the map lists them. */
    method LockAll(orders: map<string, Order>)
      requires Keyed(orders)
      modifies accountBalance
      ensures accountBalance.assetBalances == old(accountBalance.assetBalances)
      ensures forall a :: accountBalance.Value().Locked(a) == old(accountBalance.Value()).Locked(a) + Reserved(orders, a)
    {
      var left := orders;
      while left != map[]
        invariant Keyed(left)
        invariant accountBalance.assetBalances == old(accountBalance.assetBalances)
        invariant forall a ::
          accountBalance.Value().Locked(a) + Reserved(left, a) == old(accountBalance.Value()).Locked(a) + Reserved(orders, a)
        decreases |left|
      {
        var id :| id in left;
        ghost var before := accountBalance.Value();
        AddLockedBalance(left[id]);
        forall a
          ensures accountBalance.Value().Locked(a) + Reserved(left - {id}, a) == before.Locked(a) + Reserved(left, a)
        {
          ReservedWithout(left, id, a);
          BalanceLocks(before, left[id], a);
        }
        left := left - {id};
      }
    }

    /** `answer` is the exchange's answer to the order request. */
    method MarketOrder(answer: Option<Order>)
      requires Ready()
      requires answer.Some? ==> answer.value.symbol.Pair?
      modifies this, accountBalance
      ensures Ready()
      ensures Step(old(State()), if answer.Some? then Placed(answer.value) else Refused, State())
    {
      isAccountSynced := false;
      if answer.Some? {
        var order := answer.value;
        ourOrders := ourOrders[order.id := order];
        AddLockedBalance(order);
      }
      isAccountSynced := true;
    }

    method LimitOrder(price: real, answer: Option<Order>)
      requires Ready()
      requires answer.Some? ==> answer.value.symbol.Pair?
      modifies this, accountBalance
      ensures Ready()
      ensures Step(old(State()), if answer.Some? then Placed(answer.value.(price := price)) else Refused, State())
    {
      isAccountSynced := false;
      if answer.Some? {
        var order := answer.value.(price := price);
        ourOrders := ourOrders[order.id := order];
        AddLockedBalance(order);
      }
      isAccountSynced := true;
    }

    method OnAccountBalanceUpdate(changed: Balance)
      requires Ready()
      modifies accountBalance
      ensures Ready()
      ensures Step(old(State()), Totals(changed.total), State())
    {
      accountBalance.UpdateTotalBalance(changed.total);
    }

    method OnOrderUpdate(update: Order)
      requires Ready()
      modifies this, accountBalance
      ensures Ready()
      ensures Step(old(State()), Update(update), State())
    {
      if update.symbol.Unknown? {
        return;
      }
      if update.id !in ourOrders {
        HandleExternalOrder(update);
      } else {
        UpdateOurOrder(update);
      }
    }

    method UpdateOurOrder(update: Order)
      requires Ready() && update.symbol.Pair? && update.id in ourOrders
      modifies this, accountBalance
      ensures Ready()
      ensures State() == UpdateOur(old(State()), update)
    {
      var order := ourOrders[update.id].(status := update.status);
      match update.status
      case New =>
        ourOrders := ourOrders[update.id := update];
      case PartiallyFilled =>
        ourOrders := ourOrders[update.id := order.(executed := update.executed)];
      case Filled =>
        order := order.(executed := order.quantity, cost := Notional(order.quantity, order.price));
        AdjustBalanceClosedOrder(order);
        ourOrders := ourOrders - {order.id};
      case Canceled =>
        SubtractLockedBalance(order);
        ourOrders := ourOrders - {order.id};
      case Expired =>
        SubtractLockedBalance(order);
        ourOrders := ourOrders - {order.id};
      case _ =>
        ourOrders := ourOrders[update.id := order];
    }

    method HandleExternalOrder(order: Order)
      requires Ready() && order.symbol.Pair?
      modifies this, accountBalance
      ensures Ready()
      ensures State() == HandleExternal(old(State()), order)
    {
      var wasAdded := order.id in externalOrders;
      match order.status
      case New =>
        if wasAdded {
          return;
        }
        externalOrders := externalOrders[order.id := order];
        AddLockedBalance(order);
      case PendingCancel =>
      case PartiallyFilled =>
      case UnknownStatus =>
      case _ =>
        if !wasAdded {
          return;
        }
        var stored := externalOrders[order.id];
        stored := stored.(executed := order.quantity, cost := Notional(order.quantity, order.price), status := order.status);
        AdjustBalanceClosedOrder(stored);
        externalOrders := externalOrders - {order.id};
    }

    method AddLockedBalance(order: Order)
      requires order.symbol.Pair?
      modifies accountBalance
      ensures accountBalance.Value() == AddLocked(old(accountBalance.Value()), order)
    {
      AdjustLockedBalance(order, (x, y) => x + y);
    }

    method SubtractLockedBalance(order: Order)
      requires order.symbol.Pair?
      modifies accountBalance
      ensures accountBalance.Value() == SubtractLocked(old(accountBalance.Value()), order)
    {
      AdjustLockedBalance(order, (x, y) => x - y);
    }

    method AdjustLockedBalance(order: Order, operation: (real, real) -> real)
      requires order.symbol.Pair?
      modifies accountBalance
      ensures var b := old(accountBalance.Value());
              accountBalance.Value() == b.SetLocked(LockAsset(order), operation(b.Locked(LockAsset(order)), LockAmount(order)))
    {
      if order.side.Buy? {
        var locked := accountBalance.GetLockedBalance(order.symbol.quote);
        accountBalance.SetLockedBalance(order.symbol.quote, operation(locked, Notional(order.quantity, order.price)));
      } else {
        var locked := accountBalance.GetLockedBalance(order.symbol.base);
        accountBalance.SetLockedBalance(order.symbol.base, operation(locked, order.quantity));
      }
    }

    method AdjustBalanceClosedOrder(order: Order)
      requires order.symbol.Pair?
      modifies accountBalance
      ensures accountBalance.Value() == Close(old(accountBalance.Value()), order)
    {
      SubtractLockedBalance(order);
      var base, quote := order.symbol.base, order.symbol.quote;
      var total := accountBalance.GetTotalBalance(base);
      if order.side.Buy? {
        accountBalance.SetTotalBalance(base, total + order.executed);
        total := accountBalance.GetTotalBalance(quote);
        accountBalance.SetTotalBalance(quote, total - order.cost);
      } else {
        accountBalance.SetTotalBalance(base, total - order.executed);
        total := accountBalance.GetTotalBalance(quote);
        accountBalance.SetTotalBalance(quote, total + order.cost);
      }
    }

    /** What the manager reports as free is the total less the reservations of the open orders. */
    method GetFreeBalance(a: Asset) returns (free: real)
      requires Ready()
      ensures Balanced(State())
              ==> free == State().balance.Total(a) - Reserved(ourOrders, a) - Reserved(externalOrders, a)
    {
      free := accountBalance.GetFreeBalance(a);
    }

    method HasOpenOrders() returns (has: bool)
      ensures has <==> exists id :: id in ourOrders
    {
      has := ourOrders != map[];
      assert has ==> exists id :: id in ourOrders;
    }

    method HasOpenOrdersOf(pair: Symbol) returns (has: bool)
      ensures has <==> exists id :: id in ourOrders && ourOrders[id].symbol == pair
    {
      var left := ourOrders.Keys;
      while left != {}
        invariant left <= ourOrders.Keys
        invariant forall id :: id in ourOrders && id !in left ==> ourOrders[id].symbol != pair
        decreases |left|
      {
        var id :| id in left;
        if ourOrders[id].symbol == pair {
          return true;
        }
        left := left - {id};
      }
      has := false;
    }
  }
}
