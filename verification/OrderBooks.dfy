/** The depth-limited order book, edited in place by scanning its two lists. */
module OrderBooks {
  import opened Levels

  const NULL_LEVEL := Level(0.0, 0.0, 0)

  class OrderBook {
    const depth: nat
    // Highest bid last, lowest ask last.
    var bids: seq<Level>
    var asks: seq<Level>
    // The prices the depth limit has evicted since the last `Clear`.
    ghost var lostBids: set<real>
    ghost var lostAsks: set<real>

    ghost predicate Valid()
      reads this
    {
      && Sorted(Bid, bids) && |bids| <= depth
      && Sorted(Ask, asks) && |asks| <= depth
    }

    ghost function BidSide(): Side
      reads this
    {
      Side(bids, lostBids)
    }

    ghost function AskSide(): Side
      reads this
    {
      Side(asks, lostAsks)
    }

    constructor (depth: nat)
      ensures Valid() && this.depth == depth
      ensures BidSide() == EMPTY_SIDE && AskSide() == EMPTY_SIDE
    {
      this.depth := depth;
      bids, asks, lostBids, lostAsks := [], [], {}, {};
    }

    method UpsertBid(level: Level)
      requires Valid()
      modifies this
      ensures Valid()
      ensures BidSide() == Upsert(Bid, depth, old(BidSide()), level)
      ensures AskSide() == old(AskSide())
    {
      UpsertSorted(Bid, depth, BidSide(), level);
      var i, found := 0, false;
      while i < |bids|
        invariant i <= |bids|
        invariant forall j :: 0 <= j < i ==> bids[j].price != level.price && !Worse(Bid, level.price, bids[j].price)
      {
        if bids[i].price == level.price {
          found := true;
          break;
        } else if level.price < bids[i].price {
          break;
        }
        i := i + 1;
      }
      ScanFindsPosition(Bid, bids, level, i);
      bids := if found then bids[i := level] else bids[..i] + [level] + bids[i..];
      if |bids| > depth {
        lostBids := lostBids + {bids[0].price};
        bids := bids[1..];
      }
    }

    method UpsertAsk(level: Level)
      requires Valid()
      modifies this
      ensures Valid()
      ensures AskSide() == Upsert(Ask, depth, old(AskSide()), level)
      ensures BidSide() == old(BidSide())
    {
      UpsertSorted(Ask, depth, AskSide(), level);
      var i, found := 0, false;
      while i < |asks|
        invariant i <= |asks|
        invariant forall j :: 0 <= j < i ==> asks[j].price != level.price && !Worse(Ask, level.price, asks[j].price)
      {
        if asks[i].price == level.price {
          found := true;
          break;
        } else if level.price > asks[i].price {
          break;
        }
        i := i + 1;
      }
      ScanFindsPosition(Ask, asks, level, i);
      asks := if found then asks[i := level] else asks[..i] + [level] + asks[i..];
      if |asks| > depth {
        lostAsks := lostAsks + {asks[0].price};
        asks := asks[1..];
      }
    }

    /** The backward scan both deletions share. */
    static method Delete(levels: seq<Level>, price: real) returns (rest: seq<Level>)
      ensures rest == Remove(levels, price)
    {
      var i: nat := |levels|;
      rest := levels;
      assert levels[..i] == levels && levels[i..] == [];
      while i != 0
        invariant 0 <= i <= |levels| && rest == levels
        invariant Remove(levels, price) == Remove(levels[..i], price) + levels[i..]
      {
        i := i - 1;
        assert levels[..i + 1][..i] == levels[..i] && levels[i..] == [levels[i]] + levels[i + 1..];
        if levels[i].price == price {
          rest := levels[..i] + levels[i + 1..];
          return;
        }
      }
    }

    method DeleteBid(price: real)
      requires Valid()
      modifies this`bids
      ensures Valid()
      ensures bids == Remove(old(bids), price)
    {
      RemoveIsDelete(Bid, bids, price);
      bids := Delete(bids, price);
    }

    method DeleteAsk(price: real)
      requires Valid()
      modifies this`asks
      ensures Valid()
      ensures asks == Remove(old(asks), price)
    {
      RemoveIsDelete(Ask, asks, price);
      asks := Delete(asks, price);
    }

    method Clear()
      modifies this
      ensures Valid()
      ensures BidSide() == EMPTY_SIDE && AskSide() == EMPTY_SIDE
    {
      asks, lostAsks := [], {};
      bids, lostBids := [], {};
    }

    /** The best bid is the maximum of the side; an empty side answers with the null level. */
    method GetBestBid() returns (best: Level)
      requires Valid()
      ensures bids == [] ==> best == NULL_LEVEL
      ensures bids != [] ==> best in bids && forall x :: x in bids ==> x.price <= best.price
    {
      best := if bids == [] then NULL_LEVEL else bids[|bids| - 1];
    }

    method GetBestAsk() returns (best: Level)
      requires Valid()
      ensures asks == [] ==> best == NULL_LEVEL
      ensures asks != [] ==> best in asks && forall x :: x in asks ==> best.price <= x.price
    {
      best := if asks == [] then NULL_LEVEL else asks[|asks| - 1];
    }

    method Update(rawBids: seq<RawLevel>, rawAsks: seq<RawLevel>)
      requires Valid()
      modifies this
      ensures Valid()
      ensures BidSide() == ApplyAll(Bid, depth, old(BidSide()), rawBids)
      ensures AskSide() == ApplyAll(Ask, depth, old(AskSide()), rawAsks)
    {
      for i := 0 to |rawBids|
        invariant Valid()
        invariant BidSide() == ApplyAll(Bid, depth, old(BidSide()), rawBids[..i])
        invariant AskSide() == old(AskSide())
      {
        assert rawBids[..i + 1][..i] == rawBids[..i];
        var raw := rawBids[i];
        if raw.volume == 0.0 {
          DeleteBid(raw.price);
        } else {
          UpsertBid(Level(raw.price, raw.volume, if raw.timestamp.Some? then raw.timestamp.value else 0));
        }
      }
      assert rawBids[..|rawBids|] == rawBids;
      for i := 0 to |rawAsks|
        invariant Valid()
        invariant AskSide() == ApplyAll(Ask, depth, old(AskSide()), rawAsks[..i])
        invariant BidSide() == ApplyAll(Bid, depth, old(BidSide()), rawBids)
      {
        assert rawAsks[..i + 1][..i] == rawAsks[..i];
        var raw := rawAsks[i];
        if raw.volume == 0.0 {
          DeleteAsk(raw.price);
        } else {
          UpsertAsk(Level(raw.price, raw.volume, if raw.timestamp.Some? then raw.timestamp.value else 0));
        }
      }
      assert rawAsks[..|rawAsks|] == rawAsks;
    }
  }
}
