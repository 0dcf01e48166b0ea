/** The order book of the prediction scripts: an upsert also clears the levels it crosses. */
module PythonBooks {
  import opened Wrappers
  import opened Levels
  import opened Groupings

  datatype Book = Book(bids: seq<Level>, asks: seq<Level>)

  function Trimmed(depth: nat, s: seq<Level>): seq<Level>
  {
    if |s| > depth then s[1..] else s
  }

  /** Drops the best levels of a side as long as they are at or through `p`. */
  function PopCrossed(d: Direction, s: seq<Level>, p: real): seq<Level>
  {
    if s != [] && !Worse(d, s[|s| - 1].price, p) then PopCrossed(d, s[..|s| - 1], p) else s
  }

  function UpsertBid(depth: nat, b: Book, p: real, v: real): Book
  {
    Book(Trimmed(depth, Place(Bid, b.bids, Level(p, v, 0))), PopCrossed(Ask, b.asks, p))
  }

  function UpsertAsk(depth: nat, b: Book, p: real, v: real): Book
  {
    Book(PopCrossed(Bid, b.bids, p), Trimmed(depth, Place(Ask, b.asks, Level(p, v, 0))))
  }

  /** Both sides sorted and within the depth, and every bid below every ask. */
  ghost predicate Uncrossed(depth: nat, b: Book)
  {
    && Sorted(Bid, b.bids) && |b.bids| <= depth
    && Sorted(Ask, b.asks) && |b.asks| <= depth
    && forall x, y :: x in b.bids && y in b.asks ==> x.price < y.price
  }

  /** Exactly the levels at or through the price go; the others stay in place. */
  lemma {:induction false} PopCrossedExact(d: Direction, s: seq<Level>, p: real)
    requires Sorted(d, s)
    ensures PopCrossed(d, s, p) <= s
    ensures forall x :: x in PopCrossed(d, s, p) <==> x in s && Worse(d, x.price, p)
  {
    if s != [] {
      var front, last := s[..|s| - 1], s[|s| - 1];
      assert s == front + [last];
      assert forall x :: x in front ==> Worse(d, x.price, last.price);
      PopCrossedExact(d, front, p);
    }
  }

  lemma PlaceTrimmed(d: Direction, depth: nat, s: seq<Level>, l: Level)
    requires Sorted(d, s) && |s| <= depth
    ensures var t := Trimmed(depth, Place(d, s, l));
            && Sorted(d, t) && |t| <= depth
            && forall x :: x in t ==> x == l || x in s
  {
    PlaceIsUpdate(d, s, l);
    assert forall x :: x in Trimmed(depth, Place(d, s, l)) ==> x in Place(d, s, l);
  }

  /** What an upsert leaves on its side: the level put and the levels at other prices, as many of
      the best of them as the depth allows. */
  lemma UpsertKeepsBest(d: Direction, depth: nat, s: seq<Level>, l: Level)
    requires Sorted(d, s) && |s| <= depth
    ensures var t := Trimmed(depth, Place(d, s, l));
            && |t| == Min(depth, |s| + if exists x :: x in s && x.price == l.price then 0 else 1)
            && (forall x :: x in t ==> x == l || (x in s && x.price != l.price))
            && (forall x, y :: (x == l || (x in s && x.price != l.price)) && x !in t && y in t ==> Worse(d, x.price, y.price))
  {
    var placed := Place(d, s, l);
    PlaceIsUpdate(d, s, l);
    FirstIsWorst(d, placed);
    assert forall x :: x in placed <==> x == l || (x in s && x.price != l.price);
  }

  lemma FirstIsWorst(d: Direction, s: seq<Level>)
    requires Sorted(d, s) && s != []
    ensures (forall x :: x in s <==> x == s[0] || x in s[1..]) && forall y :: y in s[1..] ==> Worse(d, s[0].price, y.price)
  {
    assert s == [s[0]] + s[1..];
  }

  datatype Edit =
    | PutBid(price: real, volume: real)
    | PutAsk(price: real, volume: real)
    | DropBid(price: real)
    | DropAsk(price: real)

  function Apply(depth: nat, b: Book, e: Edit): Book
  {
    match e
    case PutBid(p, v) => UpsertBid(depth, b, p, v)
    case PutAsk(p, v) => UpsertAsk(depth, b, p, v)
    case DropBid(p) => b.(bids := Remove(b.bids, p))
    case DropAsk(p) => b.(asks := Remove(b.asks, p))
  }

  lemma ApplyUncrossed(depth: nat, b: Book, e: Edit)
    requires Uncrossed(depth, b)
    ensures Uncrossed(depth, Apply(depth, b, e))
  {
    match e
    case PutBid(p, v) =>
      PlaceTrimmed(Bid, depth, b.bids, Level(p, v, 0));
      PopCrossedExact(Ask, b.asks, p);
    case PutAsk(p, v) =>
      PlaceTrimmed(Ask, depth, b.asks, Level(p, v, 0));
      PopCrossedExact(Bid, b.bids, p);
    case DropBid(p) => RemoveIsDelete(Bid, b.bids, p);
    case DropAsk(p) => RemoveIsDelete(Ask, b.asks, p);
  }

  function Run(depth: nat, edits: seq<Edit>): Book
  {
    if edits == [] then Book([], []) else Apply(depth, Run(depth, edits[..|edits| - 1]), edits[|edits| - 1])
  }

  /** Over every run of upserts and deletes the book stays sorted, within its depth and uncrossed. */
  lemma {:induction false} RunUncrossed(depth: nat, edits: seq<Edit>)
    ensures Uncrossed(depth, Run(depth, edits))
  {
    if edits != [] {
      RunUncrossed(depth, edits[..|edits| - 1]);
      ApplyUncrossed(depth, Run(depth, edits[..|edits| - 1]), edits[|edits| - 1]);
    }
  }

  /** The width of a group: a share of the mid price. */
  function Interval(b: Book, percentage: real): real
    requires b.bids != [] && b.asks != []
  {
    percentage * ((b.bids[|b.bids| - 1].price + b.asks[|b.asks| - 1].price) / 2.0)
  }

  /** The groups before position `j` have been summed. */
  ghost predicate SummedTo(d: Direction, s: seq<Level>, interval: real, j: nat, grouped: seq<real>)
    requires j <= |s| && interval > 0.0
  {
    grouped + Sums(d, s, interval, j) == Sums(d, s, interval, 0)
  }

  lemma NextSum(d: Direction, s: seq<Level>, interval: real, j: nat, grouped: seq<real>)
    requires j < |s| && interval > 0.0 && SummedTo(d, s, interval, j, grouped)
    ensures var e := End(d, s, interval, At(s, j).price, j); SummedTo(d, s, interval, e, grouped + [Volume(s, j, e)])
  {
    var e := End(d, s, interval, At(s, j).price, j);
    assert grouped + ([Volume(s, j, e)] + Sums(d, s, interval, e)) == (grouped + [Volume(s, j, e)]) + Sums(d, s, interval, e);
  }

  lemma AllSummed(d: Direction, s: seq<Level>, interval: real, grouped: seq<real>)
    requires interval > 0.0 && SummedTo(d, s, interval, |s|, grouped)
    ensures grouped == Sums(d, s, interval, 0)
  {
    assert grouped + [] == grouped;
  }

  /** The highest bid and the lowest ask. */
  ghost predicate BestOf(bids: seq<Level>, asks: seq<Level>, bid: Level, ask: Level)
  {
    (forall x :: x in bids ==> x.price <= bid.price) && (forall x :: x in asks ==> ask.price <= x.price)
  }

  lemma TwiceHalf(p: real, x: real)
    ensures 2.0 * (p * (x / 2.0)) == p * x
  {
  }

  /** The width of a group is the share of the mid price between the highest bid and the lowest ask. */
  lemma IntervalOfBest(depth: nat, b: Book, percentage: real)
    requires Uncrossed(depth, b) && b.bids != [] && b.asks != []
    ensures var bid, ask := b.bids[|b.bids| - 1], b.asks[|b.asks| - 1];
            && BestOf(b.bids, b.asks, bid, ask)
            && 2.0 * Interval(b, percentage) == percentage * (bid.price + ask.price)
  {
    TwiceHalf(percentage, b.bids[|b.bids| - 1].price + b.asks[|b.asks| - 1].price);
  }

  class OrderBook {
    const depth: nat
    var bids: seq<Level>
    var asks: seq<Level>

    ghost function State(): Book
      reads this
    {
      Book(bids, asks)
    }

    ghost predicate Valid()
      reads this
    {
      Uncrossed(depth, State())
    }

    constructor (depth: nat)
      ensures Valid() && this.depth == depth && State() == Book([], [])
    {
      this.depth := depth;
      bids, asks := [], [];
    }

    method UpsertBid(price: real, volume: real)
      requires Valid()
      modifies this
      ensures Valid() && State() == Apply(depth, old(State()), PutBid(price, volume))
    {
      ApplyUncrossed(depth, State(), PutBid(price, volume));
      var level := Level(price, volume, 0);
      var i, found := 0, false;
      while i < |bids|
        invariant i <= |bids|
        invariant forall j :: 0 <= j < i ==> bids[j].price != price && !Worse(Bid, price, bids[j].price)
      {
        if bids[i].price == price {
          found := true;
          break;
        } else if price < bids[i].price {
          break;
        }
        i := i + 1;
      }
      ScanFindsPosition(Bid, bids, level, i);
      bids := if found then bids[i := level] else bids[..i] + [level] + bids[i..];
      if |bids| > depth {
        bids := bids[1..];
      }
      while asks != [] && asks[|asks| - 1].price <= price
        invariant bids == Trimmed(depth, Place(Bid, old(bids), level))
        invariant PopCrossed(Ask, asks, price) == PopCrossed(Ask, old(asks), price)
        decreases |asks|
      {
        asks := asks[..|asks| - 1];
      }
    }

    method UpsertAsk(price: real, volume: real)
      requires Valid()
      modifies this
      ensures Valid() && State() == Apply(depth, old(State()), PutAsk(price, volume))
    {
      ApplyUncrossed(depth, State(), PutAsk(price, volume));
      var level := Level(price, volume, 0);
      var i, found := 0, false;
      while i < |asks|
        invariant i <= |asks|
        invariant forall j :: 0 <= j < i ==> asks[j].price != price && !Worse(Ask, price, asks[j].price)
      {
        if asks[i].price == price {
          found := true;
          break;
        } else if price > asks[i].price {
          break;
        }
        i := i + 1;
      }
      ScanFindsPosition(Ask, asks, level, i);
      asks := if found then asks[i := level] else asks[..i] + [level] + asks[i..];
      if |asks| > depth {
        asks := asks[1..];
      }
      while bids != [] && bids[|bids| - 1].price >= price
        invariant asks == Trimmed(depth, Place(Ask, old(asks), level))
        invariant PopCrossed(Bid, bids, price) == PopCrossed(Bid, old(bids), price)
        decreases |bids|
      {
        bids := bids[..|bids| - 1];
      }
    }

    /** The forward scan both deletions share; in a sorted list it drops the only such level. */
    static method Delete(ghost d: Direction, levels: seq<Level>, price: real) returns (rest: seq<Level>)
      requires Sorted(d, levels)
      ensures rest == Remove(levels, price)
    {
      for i := 0 to |levels|
        invariant forall j :: 0 <= j < i ==> levels[j].price != price
      {
        if levels[i].price == price {
          RemoveAt(levels, i);
          rest := levels[..i] + levels[i + 1..];
          return;
        }
      }
      rest := levels;
      RemoveIsDelete(d, levels, price);
      SortedUnique(d, rest, Remove(levels, price));
    }

    method DeleteBid(price: real)
      requires Valid()
      modifies this
      ensures Valid() && State() == Apply(depth, old(State()), DropBid(price))
    {
      ApplyUncrossed(depth, State(), DropBid(price));
      bids := Delete(Bid, bids, price);
    }

    method DeleteAsk(price: real)
      requires Valid()
      modifies this
      ensures Valid() && State() == Apply(depth, old(State()), DropAsk(price))
    {
      ApplyUncrossed(depth, State(), DropAsk(price));
      asks := Delete(Ask, asks, price);
    }

    /** The group volumes of both sides, best group first; an empty side is an index error. */
    method GroupLevels(percentage: real) returns (groups: Outcome<(seq<real>, seq<real>)>)
      requires Valid()
      requires bids != [] && asks != [] ==> Interval(State(), percentage) > 0.0
      ensures groups.Throws? <==> bids == [] || asks == []
      ensures groups.Returns? ==>
                && groups.value.0 == Sums(Bid, bids, Interval(State(), percentage), 0)
                && groups.value.1 == Sums(Ask, asks, Interval(State(), percentage), 0)
    {
      if bids == [] || asks == [] {
        return Throws;
      }
      var interval := Interval(Book(bids, asks), percentage);
      var groupedBids := GroupBids(interval);
      var groupedAsks := GroupAsks(interval);
      groups := Returns((groupedBids, groupedAsks));
    }

    /** Counts `k` down from the last level, as negative indices do. */
    method GroupBids(interval: real) returns (grouped: seq<real>)
      requires interval > 0.0
      ensures grouped == Sums(Bid, bids, interval, 0)
    {
      var k := -1;
      grouped := [];
      while k >= -|bids|
        invariant -|bids| - 1 <= k <= -1
        invariant SummedTo(Bid, bids, interval, -1 - k, grouped)
        decreases k + |bids|
      {
        var summed;
        NextSum(Bid, bids, interval, -1 - k, grouped);
        summed, k := SumBidGroup(interval, k);
        grouped := grouped + [summed];
      }
      AllSummed(Bid, bids, interval, grouped);
    }

    method SumBidGroup(interval: real, start: int) returns (summed: real, k: int)
      requires interval > 0.0 && -|bids| <= start <= -1
      ensures var e := End(Bid, bids, interval, bids[|bids| + start].price, -1 - start);
              k == -1 - e && k < start && summed == Volume(bids, -1 - start, e)
    {
      var p := bids[|bids| + start].price;
      var thresh := p - interval;
      summed, k := 0.0, start;
      ghost var e := End(Bid, bids, interval, p, -1 - start);
      while k >= -|bids| && bids[|bids| + k].price > thresh
        invariant -|bids| - 1 <= k <= start
        invariant End(Bid, bids, interval, p, -1 - k) == e
        invariant summed + Volume(bids, -1 - k, e) == Volume(bids, -1 - start, e)
        decreases k + |bids|
      {
        summed := summed + bids[|bids| + k].volume;
        k := k - 1;
      }
    }

    method GroupAsks(interval: real) returns (grouped: seq<real>)
      requires interval > 0.0
      ensures grouped == Sums(Ask, asks, interval, 0)
    {
      var k := -1;
      grouped := [];
      while k >= -|asks|
        invariant -|asks| - 1 <= k <= -1
        invariant SummedTo(Ask, asks, interval, -1 - k, grouped)
        decreases k + |asks|
      {
        var summed;
        NextSum(Ask, asks, interval, -1 - k, grouped);
        summed, k := SumAskGroup(interval, k);
        grouped := grouped + [summed];
      }
      AllSummed(Ask, asks, interval, grouped);
    }

    method SumAskGroup(interval: real, start: int) returns (summed: real, k: int)
      requires interval > 0.0 && -|asks| <= start <= -1
      ensures var e := End(Ask, asks, interval, asks[|asks| + start].price, -1 - start);
              k == -1 - e && k < start && summed == Volume(asks, -1 - start, e)
    {
      var p := asks[|asks| + start].price;
      var thresh := p + interval;
      summed, k := 0.0, start;
      ghost var e := End(Ask, asks, interval, p, -1 - start);
      while k >= -|asks| && asks[|asks| + k].price < thresh
        invariant -|asks| - 1 <= k <= start
        invariant End(Ask, asks, interval, p, -1 - k) == e
        invariant summed + Volume(asks, -1 - k, e) == Volume(asks, -1 - start, e)
        decreases k + |asks|
      {
        summed := summed + asks[|asks| + k].volume;
        k := k - 1;
      }
    }
  }
}
