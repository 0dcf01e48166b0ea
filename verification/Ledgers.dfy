/** The reservation ledger of an account manager: how much of each asset its open orders lock. */
module Ledgers {
  import opened AccountBalances

  datatype Ledger = Ledger(our: map<string, Order>, external: map<string, Order>, balance: Balance, synced: bool)

  const EMPTY_LEDGER := Ledger(map[], map[], NO_BALANCE, false)

  // ----- Reservations -----

  function LockAsset(o: Order): Asset
    requires o.symbol.Pair?
  {
    if o.side.Buy? then o.symbol.quote else o.symbol.base
  }

  function Notional(quantity: real, price: real): real
  {
    quantity * price
  }

  function LockAmount(o: Order): real
  {
    if o.side.Buy? then Notional(o.quantity, o.price) else o.quantity
  }

  function AddLocked(b: Balance, o: Order): Balance
    requires o.symbol.Pair?
  {
    b.SetLocked(LockAsset(o), b.Locked(LockAsset(o)) + LockAmount(o))
  }

  function SubtractLocked(b: Balance, o: Order): Balance
    requires o.symbol.Pair?
  {
    b.SetLocked(LockAsset(o), b.Locked(LockAsset(o)) - LockAmount(o))
  }

  /** Releases a closed order and books what it traded. */
  function Close(b: Balance, o: Order): Balance
    requires o.symbol.Pair?
  {
    Trade(SubtractLocked(b, o), o)
  }

  function Trade(b: Balance, o: Order): Balance
    requires o.symbol.Pair?
  {
    var base, quote := o.symbol.base, o.symbol.quote;
    if o.side.Buy? then
      var b1 := b.SetTotal(base, b.Total(base) + o.executed);
      b1.SetTotal(quote, b1.Total(quote) - o.cost)
    else
      var b1 := b.SetTotal(base, b.Total(base) - o.executed);
      b1.SetTotal(quote, b1.Total(quote) + o.cost)
  }

  // ----- The operations -----

  predicate Terminal(s: Status)
  {
    s.Filled? || s.Canceled? || s.Expired?
  }

  ghost predicate Keyed(m: map<string, Order>)
  {
    forall id :: id in m ==> m[id].id == id && m[id].symbol.Pair?
  }

  ghost predicate Valid(l: Ledger)
  {
    Keyed(l.our) && Keyed(l.external)
  }

  function PlaceOur(l: Ledger, o: Order): Ledger
    requires o.symbol.Pair?
  {
    l.(our := l.our[o.id := o], balance := AddLocked(l.balance, o), synced := true)
  }

  /** The order as a FILLED update leaves it: executed in full, at its own price. */
  function FilledOur(o: Order): Order
  {
    o.(status := Filled, executed := o.quantity, cost := Notional(o.quantity, o.price))
  }

  /** The stored order with what the closing update reports. */
  function ClosedExternal(o: Order, u: Order): Order
  {
    o.(status := u.status, executed := u.quantity, cost := Notional(u.quantity, u.price))
  }

  function UpdateOur(l: Ledger, u: Order): Ledger
    requires Valid(l) && u.id in l.our
  {
    var o := l.our[u.id].(status := u.status);
    if u.status.New? then l.(our := l.our[u.id := u])
    else if u.status.Filled? then
      l.(our := l.our - {u.id}, balance := Close(l.balance, FilledOur(l.our[u.id])))
    else if Terminal(u.status) then l.(our := l.our - {u.id}, balance := SubtractLocked(l.balance, o))
    else if u.status.PartiallyFilled? then l.(our := l.our[u.id := o.(executed := u.executed)])
    else l.(our := l.our[u.id := o])
  }

  function HandleExternal(l: Ledger, u: Order): Ledger
    requires Valid(l) && u.symbol.Pair?
  {
    if u.status.New? && u.id !in l.external then
      l.(external := l.external[u.id := u], balance := AddLocked(l.balance, u))
    else if (Terminal(u.status) || u.status.Rejected?) && u.id in l.external then
      l.(external := l.external - {u.id}, balance := Close(l.balance, ClosedExternal(l.external[u.id], u)))
    else l
  }

  function OnOrderUpdate(l: Ledger, u: Order): Ledger
    requires Valid(l)
  {
    if u.symbol.Unknown? then l
    else if u.id in l.our then UpdateOur(l, u)
    else HandleExternal(l, u)
  }

  /** Forgets the external orders and takes over the open ones. */
  function Reopen(l: Ledger, orders: seq<Order>): (l': Ledger)
    requires Valid(l)
    ensures Valid(l') && l'.our == l.our
  {
    if orders == [] then l.(external := map[])
    else
      var l1, o := Reopen(l, orders[..|orders| - 1]), orders[|orders| - 1];
      if o.symbol.Unknown? then l1 else HandleExternal(l1, o)
  }

  // ----- The sum the locked balance stands for -----

  /** What `o` is to lock of asset `a`: a purchase its cost in the quote asset, a sale its quantity
      of the base asset. */
  function Share(o: Order, a: Asset): real
    requires o.symbol.Pair?
  {
    match o.side
    case Buy => if a == o.symbol.quote then Notional(o.quantity, o.price) else 0.0
    case Sell => if a == o.symbol.base then o.quantity else 0.0
  }

  ghost function Reserved(m: map<string, Order>, a: Asset): real
    requires Keyed(m)
  {
    if m == map[] then 0.0
    else
      var id :| id in m;
      Share(m[id], a) + Reserved(m - {id}, a)
  }

  /** The locked balance of every asset is the sum over the open orders. */
  ghost predicate Balanced(l: Ledger)
  {
    Valid(l) && forall a :: l.balance.Locked(a) == Reserved(l.our, a) + Reserved(l.external, a)
  }

  lemma {:induction false} ReservedWithout(m: map<string, Order>, id: string, a: Asset)
    requires Keyed(m) && id in m
    ensures Reserved(m, a) == Share(m[id], a) + Reserved(m - {id}, a)
    decreases |m|
  {
    var first :| first in m && Reserved(m, a) == Share(m[first], a) + Reserved(m - {first}, a);
    if first != id {
      ReservedWithout(m - {first}, id, a);
      ReservedWithout(m - {id}, first, a);
      assert (m - {first}) - {id} == (m - {id}) - {first};
    }
  }

  lemma ReservedUpdate(m: map<string, Order>, o: Order, a: Asset)
    requires Keyed(m) && o.symbol.Pair?
    ensures Keyed(m[o.id := o])
    ensures Reserved(m[o.id := o], a)
            == Reserved(m, a) + Share(o, a) - (if o.id in m then Share(m[o.id], a) else 0.0)
  {
    ReservedWithout(m[o.id := o], o.id, a);
    assert m[o.id := o] - {o.id} == m - {o.id};
    if o.id in m {
      ReservedWithout(m, o.id, a);
    } else {
      assert m - {o.id} == m;
    }
  }

  // ----- Steps and runs -----

  datatype Action =
    | Open(orders: seq<Order>)      // Initialize, with the exchange's open orders
    | Placed(order: Order)          // a placement the exchange accepted
    | Refused                       // a placement the exchange refused
    | Update(order: Order)
    | Totals(total: map<Asset, real>)
    | Refresh(fetched: Balance)

  ghost predicate Step(l: Ledger, act: Action, l': Ledger)
    requires Valid(l)
  {
    match act
    case Open(orders) => l' == Reopen(l, orders)
    case Placed(o) => o.symbol.Pair? && l' == PlaceOur(l, o)
    case Refused => l' == l.(synced := true)
    case Update(u) => l' == OnOrderUpdate(l, u)
    case Totals(total) => l' == l.(balance := Balance(l.balance.total + total, l.balance.locked))
    case Refresh(fetched) =>
      && l'.our == l.our && l'.external == l.external && l'.synced
      && l'.balance.total == fetched.total
      && forall a :: l'.balance.Locked(a) == fetched.Locked(a) + Reserved(l.our, a) + Reserved(l.external, a)
  }

  /** The condition under which a step keeps the books: no order that still locks something is
      forgotten or overwritten by one that locks otherwise, and a fetched balance comes without
      locked amounts of its own. */
  ghost predicate Honest(l: Ledger, act: Action)
    requires Valid(l)
  {
    match act
    case Open(_) => forall a :: Reserved(l.external, a) == 0.0
    case Placed(o) => o.id in l.our ==> forall a :: Share(l.our[o.id], a) == 0.0
    case Refused => true
    case Update(u) =>
      u.symbol.Pair? && u.status.New? && u.id in l.our ==> forall a :: Share(u, a) == Share(l.our[u.id], a)
    case Totals(_) => true
    case Refresh(fetched) => forall a :: fetched.Locked(a) == 0.0
  }

  lemma BalanceLocks(b: Balance, o: Order, a: Asset)
    requires o.symbol.Pair?
    ensures AddLocked(b, o).Locked(a) == b.Locked(a) + Share(o, a)
    ensures SubtractLocked(b, o).Locked(a) == b.Locked(a) - Share(o, a)
    ensures Close(b, o).Locked(a) == b.Locked(a) - Share(o, a)
  {
  }

  lemma CloseLocks(m: map<string, Order>, b: Balance, id: string, o: Order, a: Asset)
    requires Keyed(m) && id in m && o.symbol == m[id].symbol && o.side == m[id].side
    requires o.quantity == m[id].quantity && o.price == m[id].price
    ensures Keyed(m - {id})
    ensures Close(b, o).Locked(a) - Reserved(m - {id}, a) == b.Locked(a) - Reserved(m, a)
    ensures SubtractLocked(b, o).Locked(a) - Reserved(m - {id}, a) == b.Locked(a) - Reserved(m, a)
  {
    BalanceLocks(b, o, a);
    ReservedWithout(m, id, a);
    assert Share(o, a) == Share(m[id], a);
  }

  lemma KeepOurLocks(l: Ledger, u: Order, a: Asset)
    requires Valid(l) && u.symbol.Pair? && u.id in l.our && !Terminal(u.status)
    ensures var l' := UpdateOur(l, u);
            && Keyed(l'.our) && l'.external == l.external && l'.balance == l.balance
            && Reserved(l'.our, a) == Reserved(l.our, a) + (if u.status.New? then Share(u, a) - Share(l.our[u.id], a) else 0.0)
  {
    var o := l.our[u.id].(status := u.status);
    var o' := if u.status.New? then u else if u.status.PartiallyFilled? then o.(executed := u.executed) else o;
    ReservedUpdate(l.our, o', a);
    assert !u.status.New? ==> Share(o', a) == Share(l.our[u.id], a);
    assert UpdateOur(l, u).our == l.our[u.id := o'];
  }

  lemma EndOurLocks(l: Ledger, u: Order, a: Asset)
    requires Valid(l) && u.symbol.Pair? && u.id in l.our && Terminal(u.status)
    ensures var l' := UpdateOur(l, u);
            && Keyed(l'.our) && l'.external == l.external
            && l'.balance.Locked(a) - Reserved(l'.our, a) == l.balance.Locked(a) - Reserved(l.our, a)
  {
    var o := if u.status.Filled? then FilledOur(l.our[u.id]) else l.our[u.id].(status := u.status);
    CloseLocks(l.our, l.balance, u.id, o, a);
    var l' := UpdateOur(l, u);
    assert l'.our == l.our - {u.id};
    assert l'.balance == if u.status.Filled? then Close(l.balance, o) else SubtractLocked(l.balance, o);
  }

  lemma HandleExternalLocks(l: Ledger, u: Order, a: Asset)
    requires Valid(l) && u.symbol.Pair?
    ensures var l' := HandleExternal(l, u);
            && Valid(l') && l'.our == l.our
            && l'.balance.Locked(a) - Reserved(l'.external, a) == l.balance.Locked(a) - Reserved(l.external, a)
  {
    var l' := HandleExternal(l, u);
    if u.status.New? && u.id !in l.external {
      BalanceLocks(l.balance, u, a);
      ReservedUpdate(l.external, u, a);
    } else if (Terminal(u.status) || u.status.Rejected?) && u.id in l.external {
      var o := ClosedExternal(l.external[u.id], u);
      CloseLocks(l.external, l.balance, u.id, o, a);
      assert l'.external == l.external - {u.id};
      assert l'.our == l.our;
      assert l'.balance == Close(l.balance, o);
    } else {
      assert l' == l;
    }
  }

  lemma {:induction false} ReopenLocks(l: Ledger, orders: seq<Order>, a: Asset)
    requires Valid(l)
    ensures var l' := Reopen(l, orders);
            l'.balance.Locked(a) - Reserved(l'.external, a) == l.balance.Locked(a)
  {
    if orders != [] {
      var front, o := orders[..|orders| - 1], orders[|orders| - 1];
      ReopenLocks(l, front, a);
      if o.symbol.Pair? {
        HandleExternalLocks(Reopen(l, front), o, a);
      }
    }
  }

  /** How far a step moves the locked balance of `a` away from the sum it stands for. */
  ghost function Drift(l: Ledger, act: Action, a: Asset): real
    requires Valid(l)
  {
    match act
    case Open(_) => Reserved(l.external, a)
    case Placed(o) => if o.id in l.our then Share(l.our[o.id], a) else 0.0
    case Update(u) =>
      if u.symbol.Pair? && u.status.New? && u.id in l.our then Share(l.our[u.id], a) - Share(u, a) else 0.0
    case Refresh(fetched) => fetched.Locked(a)
    case _ => 0.0
  }

  lemma UpdateDrift(l: Ledger, u: Order, a: Asset)
    requires Balanced(l)
    ensures var l' := OnOrderUpdate(l, u);
            && Valid(l')
            && l'.balance.Locked(a) == Reserved(l'.our, a) + Reserved(l'.external, a) + Drift(l, Update(u), a)
  {
    if u.symbol.Pair? {
      if u.id !in l.our {
        HandleExternalLocks(l, u, a);
      } else if Terminal(u.status) {
        EndOurLocks(l, u, a);
      } else {
        KeepOurLocks(l, u, a);
      }
    }
  }

  lemma StepDrift(l: Ledger, act: Action, l': Ledger, a: Asset)
    requires Balanced(l) && Step(l, act, l')
    ensures Valid(l')
    ensures l'.balance.Locked(a) == Reserved(l'.our, a) + Reserved(l'.external, a) + Drift(l, act, a)
  {
    match act
    case Open(orders) => ReopenLocks(l, orders, a);
    case Placed(o) => ReservedUpdate(l.our, o, a);
    case Update(u) => UpdateDrift(l, u, a);
    case _ =>
  }

  /** Exactly the honest steps keep the locked balance equal to the sum over the open orders. */
  lemma StepBalancedIff(l: Ledger, act: Action, l': Ledger)
    requires Balanced(l) && Step(l, act, l')
    ensures Valid(l')
    ensures Balanced(l') <==> Honest(l, act)
  {
    StepDrift(l, act, l', "");
    forall a
      ensures l'.balance.Locked(a) == Reserved(l'.our, a) + Reserved(l'.external, a) + Drift(l, act, a)
    {
      StepDrift(l, act, l', a);
    }
    if Balanced(l') {
      forall a
        ensures Drift(l, act, a) == 0.0
      {
        StepDrift(l, act, l', a);
      }
      DriftsNowhere(l, act);
    }
    if Honest(l, act) {
      DriftsNowhere(l, act);
    }
  }

  lemma DriftsNowhere(l: Ledger, act: Action)
    requires Valid(l)
    ensures Honest(l, act) <==> forall a :: Drift(l, act, a) == 0.0
  {
    if forall a :: Drift(l, act, a) == 0.0 {
      match act
      case Open(_) => assert forall a :: Reserved(l.external, a) == Drift(l, act, a);
      case Placed(o) =>
        if o.id in l.our { assert forall a :: Share(l.our[o.id], a) == Drift(l, act, a); }
      case Update(u) =>
        if u.symbol.Pair? && u.status.New? && u.id in l.our {
          assert forall a :: Share(l.our[u.id], a) - Share(u, a) == Drift(l, act, a);
        }
      case Refresh(fetched) => assert forall a :: fetched.Locked(a) == Drift(l, act, a);
      case _ =>
    }
  }

  /** A refresh throws the locked amounts away and adds them up again: each comes out as it was,
      exactly if the fetched balance brought none. */
  lemma RefreshKeepsLocked(l: Ledger, fetched: Balance, l': Ledger, a: Asset)
    requires Balanced(l) && Step(l, Refresh(fetched), l')
    ensures l'.balance.Locked(a) == l.balance.Locked(a) <==> fetched.Locked(a) == 0.0
  {
  }

  ghost predicate Run(ls: seq<Ledger>, acts: seq<Action>)
  {
    && |ls| == |acts| + 1 && ls[0] == EMPTY_LEDGER
    && forall i :: 0 <= i < |acts| ==> Valid(ls[i]) && Step(ls[i], acts[i], ls[i + 1])
  }

  /** Over every run of honest steps from the empty manager, the locked balance of every asset is
      what the open orders reserve: quantity times price of the quote asset for a purchase,
      quantity of the base asset for a sale. */
  lemma {:induction false} RunBalanced(ls: seq<Ledger>, acts: seq<Action>, n: nat)
    requires Run(ls, acts) && n <= |acts|
    requires forall i :: 0 <= i < n ==> Honest(ls[i], acts[i])
    ensures Balanced(ls[n])
  {
    if n > 0 {
      RunBalanced(ls, acts, n - 1);
      StepBalancedIff(ls[n - 1], acts[n - 1], ls[n]);
    }
  }

  // ----- Single ownership -----

  ghost predicate Held(l: Ledger, id: string)
  {
    id in l.our || id in l.external
  }

  predicate Mentions(act: Action, id: string)
  {
    match act
    case Open(orders) => exists i :: 0 <= i < |orders| && orders[i].id == id
    case Placed(o) => o.id == id
    case Update(u) => u.id == id
    case _ => false
  }

  /** The update that ends an order of a known pair. */
  predicate Ends(act: Action, id: string)
  {
    act.Update? && act.order.id == id && act.order.symbol.Pair? && Terminal(act.order.status)
  }

  /** What the exchange keeps to, placements and updates being taken one at a time: it issues each
      id once, says nothing about an id before issuing it, and never reports an ended order as
      new. Open orders are fetched once, first. */
  ghost predicate Orderly(acts: seq<Action>)
  {
    && (forall i :: 0 <= i < |acts| && acts[i].Open? ==> i == 0)
    && (forall i, j :: 0 <= j < i < |acts| && acts[i].Placed? ==> !Mentions(acts[j], acts[i].order.id))
    && (forall i, j :: 0 <= i < j < |acts| && acts[j].Update? && Ends(acts[i], acts[j].order.id) ==> !acts[j].order.status.New?)
  }

  lemma {:induction false} ReopenHolds(l: Ledger, orders: seq<Order>, id: string)
    requires Valid(l)
    ensures id in Reopen(l, orders).external ==> exists i :: 0 <= i < |orders| && orders[i].id == id
  {
    if orders != [] {
      var front := orders[..|orders| - 1];
      ReopenHolds(l, front, id);
      assert forall i :: 0 <= i < |front| ==> front[i] == orders[i];
    }
  }

  lemma {:induction false} HeldWasMentioned(ls: seq<Ledger>, acts: seq<Action>, n: nat, id: string)
    requires Run(ls, acts) && n <= |acts| && Held(ls[n], id)
    ensures exists j :: 0 <= j < n && Mentions(acts[j], id)
  {
    if n == 0 {
      assert false;
    } else if !Mentions(acts[n - 1], id) {
      if acts[n - 1].Open? {
        ReopenHolds(ls[n - 1], acts[n - 1].orders, id);
      }
      HeldWasMentioned(ls, acts, n - 1, id);
    }
  }

  lemma StepSingleOwner(l: Ledger, act: Action, l': Ledger)
    requires Valid(l) && Step(l, act, l') && l.our.Keys !! l.external.Keys && !act.Open?
    requires act.Placed? ==> act.order.id !in l.external
    ensures l'.our.Keys !! l'.external.Keys
  {
  }

  /** No id is ever in both maps. */
  lemma {:induction false} SingleOwner(ls: seq<Ledger>, acts: seq<Action>, n: nat)
    requires Run(ls, acts) && Orderly(acts) && n <= |acts|
    ensures ls[n].our.Keys !! ls[n].external.Keys
  {
    if n > 0 {
      var l, act := ls[n - 1], acts[n - 1];
      SingleOwner(ls, acts, n - 1);
      if act.Placed? && act.order.id in l.external {
        HeldWasMentioned(ls, acts, n - 1, act.order.id);
      }
      if n > 1 {
        StepSingleOwner(l, act, ls[n]);
      }
    }
  }

  /** A step that does not mention an id, or reports it other than as new, does not bring it in. */
  lemma StaysOut(l: Ledger, act: Action, l': Ledger, id: string)
    requires Valid(l) && Step(l, act, l') && !Held(l, id) && !act.Open?
    requires act.Placed? ==> act.order.id != id
    requires act.Update? && act.order.id == id ==> !act.order.status.New?
    ensures !Held(l', id)
  {
  }

  lemma EndTakesOut(l: Ledger, act: Action, l': Ledger, id: string)
    requires Valid(l) && Step(l, act, l') && Ends(act, id) && l.our.Keys !! l.external.Keys
    ensures !Held(l', id)
  {
  }

  /** Once an order has ended, its id is in neither map for the rest of the run. */
  lemma {:induction false} EndedStaysOut(ls: seq<Ledger>, acts: seq<Action>, i: nat, n: nat, id: string)
    requires Run(ls, acts) && Orderly(acts) && i < n <= |acts| && Ends(acts[i], id)
    ensures !Held(ls[n], id)
    decreases n
  {
    if i + 1 < n {
      EndedStaysOut(ls, acts, i, n - 1, id);
      assert Mentions(acts[i], id);
      StaysOut(ls[n - 1], acts[n - 1], ls[n], id);
    } else {
      SingleOwner(ls, acts, i);
      EndTakesOut(ls[i], acts[i], ls[n], id);
    }
  }

  /** Which ids are held after an update: an own order until it is filled, canceled or expired (a
      rejection does not release it), an external one until any of these or a rejection. */
  lemma HeldAfterUpdate(l: Ledger, u: Order, id: string)
    requires Valid(l) && l.our.Keys !! l.external.Keys && u.symbol.Pair?
    ensures Held(OnOrderUpdate(l, u), id)
            <==> if id != u.id then Held(l, id)
                 else if id in l.our then !Terminal(u.status)
                 else u.status.New? || (id in l.external && !Terminal(u.status) && !u.status.Rejected?)
  {
  }

  /** A second FILLED, CANCELED or EXPIRED for the same order changes nothing, however much later
      it arrives: the reservation is released once. */
  lemma ReleasedOnce(ls: seq<Ledger>, acts: seq<Action>, i: nat, j: nat, id: string)
    requires Run(ls, acts) && Orderly(acts) && i < j < |acts| && Ends(acts[i], id) && Ends(acts[j], id)
    ensures ls[j + 1] == ls[j]
  {
    EndedStaysOut(ls, acts, i, j, id);
  }

  // ----- The two together -----

  /** A NEW report of an own order carries what was stored, and fetched balances lock nothing. */
  ghost predicate Truthful(l: Ledger, act: Action)
  {
    match act
    case Update(u) =>
      u.status.New? && u.id in l.our ==> u.symbol == l.our[u.id].symbol && u.side == l.our[u.id].side
                                         && u.quantity == l.our[u.id].quantity && u.price == l.our[u.id].price
    case Refresh(fetched) => fetched.locked == map[]
    case _ => true
  }

  /** With an orderly exchange that tells the truth every step is honest, so the locked balance is
      the sum over the open orders after every run. */
  lemma {:induction false} OrderlyBalanced(ls: seq<Ledger>, acts: seq<Action>, n: nat)
    requires Run(ls, acts) && Orderly(acts) && n <= |acts|
    requires forall i :: 0 <= i < n ==> Truthful(ls[i], acts[i])
    ensures Balanced(ls[n])
  {
    if n > 0 {
      var l, act := ls[n - 1], acts[n - 1];
      OrderlyBalanced(ls, acts, n - 1);
      if act.Placed? && act.order.id in l.our {
        HeldWasMentioned(ls, acts, n - 1, act.order.id);
      }
      assert Honest(l, act);
      StepBalancedIff(l, act, ls[n]);
    }
  }

  /** Filling an own order turns its reservation into a payment: what was reserved leaves the total
      and the locked balance at once, so the free amount of that asset does not move, and the free
      amount of the other asset grows by what was bought or received. */
  lemma FillKeepsFree(l: Ledger, u: Order, a: Asset)
    requires Valid(l) && u.symbol.Pair? && u.id in l.our && u.status.Filled?
    requires l.our[u.id].symbol.base != l.our[u.id].symbol.quote
    ensures var o := l.our[u.id];
            OnOrderUpdate(l, u).balance.Free(a) - l.balance.Free(a)
            == if o.side.Buy? && a == o.symbol.base then o.quantity
               else if o.side.Sell? && a == o.symbol.quote then Notional(o.quantity, o.price)
               else 0.0
  {
  }

  // ----- Runs that drift -----

  lemma ReservedOne(o: Order, a: Asset)
    requires o.symbol.Pair?
    ensures Reserved(map[o.id := o], a) == Share(o, a)
  {
    var none: map<string, Order> := map[];
    ReservedUpdate(none, o, a);
    assert none[o.id := o] == map[o.id := o];
  }

  /** The run that places `o` and then hears of it as new with price 0. */
  function PlacedThenNew(o: Order): (run: (seq<Ledger>, seq<Action>))
    requires o.symbol.Pair?
  {
    var u := o.(status := New, price := 0.0);
    var placed := PlaceOur(EMPTY_LEDGER, o);
    ([EMPTY_LEDGER, placed, placed.(our := map[o.id := u])], [Placed(o), Update(u)])
  }

  /** After a purchase, a NEW report with price 0 leaves all of its cost locked for no order. */
  lemma NewWithoutPriceDrifts(o: Order)
    requires o.symbol.Pair? && o.side.Buy?
    ensures var (ls, acts) := PlacedThenNew(o); var quote := o.symbol.quote;
            && Run(ls, acts)
            && ls[2].balance.Locked(quote) == o.quantity * o.price
            && Reserved(ls[2].our, quote) + Reserved(ls[2].external, quote) == 0.0
  {
    var (ls, acts) := PlacedThenNew(o);
    assert ls[1].our == map[o.id := o];
    assert ls[1].our[o.id := acts[1].order] == map[o.id := acts[1].order];
    assert OnOrderUpdate(ls[1], acts[1].order) == ls[2];
    ReservedOne(acts[1].order, o.symbol.quote);
  }

  /** The run of two calls of `Initialize` that both find the open order `o`. */
  function OpenedTwice(o: Order): (run: (seq<Ledger>, seq<Action>))
    requires o.symbol.Pair?
  {
    var once := Ledger(map[], map[o.id := o], AddLocked(NO_BALANCE, o), false);
    ([EMPTY_LEDGER, once, once.(balance := AddLocked(once.balance, o))], [Open([o]), Open([o])])
  }

  lemma ReopenOne(l: Ledger, o: Order)
    requires Valid(l) && o.symbol.Pair? && o.status.New?
    ensures Reopen(l, [o]) == l.(external := map[o.id := o], balance := AddLocked(l.balance, o))
  {
    assert [o][..0] == [];
    assert Reopen(l, []) == l.(external := map[]);
    var none: map<string, Order> := map[];
    assert none[o.id := o] == map[o.id := o];
  }

  /** The second call locks the amount of an open order again. */
  lemma SecondInitializeDrifts(o: Order)
    requires o.symbol.Pair? && o.status.New?
    ensures var (ls, acts) := OpenedTwice(o); var a := LockAsset(o);
            && Run(ls, acts)
            && ls[2].balance.Locked(a) == 2.0 * LockAmount(o)
            && Reserved(ls[2].our, a) + Reserved(ls[2].external, a) == LockAmount(o)
  {
    var (ls, acts) := OpenedTwice(o);
    ReopenOne(EMPTY_LEDGER, o);
    ReopenOne(ls[1], o);
    ReservedOne(o, LockAsset(o));
  }
}
