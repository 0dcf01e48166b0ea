/** Orders, and the balance record that exchanges and account managers pass around. */
module AccountBalances {
  type Asset = string

  /** A trading pair; `Unknown` is a name outside the symbol tables. */
  datatype Symbol = Unknown | Pair(base: Asset, quote: Asset)

  datatype OrderSide = Sell | Buy

  datatype Status = New | PartiallyFilled | Filled | Canceled | PendingCancel | Rejected | Expired | UnknownStatus

  datatype Order = Order(
    id: string, symbol: Symbol, side: OrderSide, quantity: real, price: real,
    status: Status, executed: real, cost: real)

  datatype Balance = Balance(total: map<Asset, real>, locked: map<Asset, real>)
  {
    function Total(a: Asset): real { if a in total then total[a] else 0.0 }

    function Locked(a: Asset): real { if a in locked then locked[a] else 0.0 }

    function Free(a: Asset): real { Total(a) - Locked(a) }

    function SetTotal(a: Asset, v: real): Balance { this.(total := total[a := v]) }

    function SetLocked(a: Asset, v: real): Balance { this.(locked := locked[a := v]) }
  }

  const NO_BALANCE := Balance(map[], map[])

  class AccountBalance {
    var assetBalances: map<Asset, real>
    var lockedBalances: map<Asset, real>

    ghost function Value(): Balance
      reads this
    {
      Balance(assetBalances, lockedBalances)
    }

    constructor (initial: Balance)
      ensures Value() == initial
    {
      assetBalances, lockedBalances := initial.total, initial.locked;
    }

    method Assign(other: Balance)
      modifies this
      ensures Value() == other
    {
      assetBalances, lockedBalances := other.total, other.locked;
    }

    method GetTotalBalance(a: Asset) returns (r: real)
      ensures r == Value().Total(a)
    {
      r := if a in assetBalances then assetBalances[a] else 0.0;
    }

    method GetLockedBalance(a: Asset) returns (r: real)
      ensures r == Value().Locked(a)
    {
      r := if a in lockedBalances then lockedBalances[a] else 0.0;
    }

    method GetFreeBalance(a: Asset) returns (r: real)
      ensures r == Value().Free(a)
    {
      var total := GetTotalBalance(a);
      var locked := GetLockedBalance(a);
      r := total - locked;
    }

    method SetTotalBalance(a: Asset, v: real)
      modifies this
      ensures Value() == old(Value()).SetTotal(a, v)
    {
      assetBalances := assetBalances[a := v];
    }

    method SetLockedBalance(a: Asset, v: real)
      modifies this
      ensures Value() == old(Value()).SetLocked(a, v)
    {
      lockedBalances := lockedBalances[a := v];
    }

    method AddBalance(a: Asset, v: real)
      modifies this
      ensures Value() == old(Value()).SetTotal(a, old(Value()).Total(a) + v)
    {
      if a !in assetBalances {
        assetBalances := assetBalances[a := v];
        return;
      }
      assetBalances := assetBalances[a := assetBalances[a] + v];
    }

    /** Totals of the listed assets are replaced; the others and all locked amounts stay. */
    method UpdateTotalBalance(other: map<Asset, real>)
      modifies this
      ensures Value() == Balance(old(assetBalances) + other, old(lockedBalances))
    {
      var rest := other.Keys;
      while rest != {}
        invariant rest <= other.Keys && lockedBalances == old(lockedBalances)
        invariant assetBalances == old(assetBalances) + (other - rest)
        decreases |rest|
      {
        var a :| a in rest;
        SetTotalBalance(a, other[a]);
        rest := rest - {a};
      }
      assert other - rest == other;
    }
  }
}
