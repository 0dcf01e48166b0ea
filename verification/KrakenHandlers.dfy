/** The Kraken handler drives the same truncated book, asks before bids. */
module KrakenHandlers {
  import opened Wrappers
  import opened Levels
  import opened OrderBooks
  import Decimals
  import Truncation

  /** The level as the update of an order book sees it: Kraken levels always carry their timestamp. */
  function AsRaw(l: Level): RawLevel
  {
    RawLevel(l.price, l.volume, Some(l.timestamp))
  }

  function AsRaws(ls: seq<Level>): (rs: seq<RawLevel>)
    ensures |rs| == |ls| && forall i :: 0 <= i < |ls| ==> rs[i] == AsRaw(ls[i])
  {
    seq(|ls|, i requires 0 <= i < |ls| => AsRaw(ls[i]))
  }

  /** Upserts only: a snapshot level of volume zero is stored like any other. */
  function UpsertAll(d: Direction, depth: nat, s: Side, ls: seq<Level>): Side
  {
    if ls == [] then s else Upsert(d, depth, UpsertAll(d, depth, s, ls[..|ls| - 1]), ls[|ls| - 1])
  }

  method OnOrderBookSnapshot(book: OrderBook, asks: seq<Level>, bids: seq<Level>)
    requires book.Valid()
    modifies book
    ensures book.Valid()
    ensures book.AskSide() == UpsertAll(Ask, book.depth, EMPTY_SIDE, asks)
    ensures book.BidSide() == UpsertAll(Bid, book.depth, EMPTY_SIDE, bids)
  {
    book.Clear();
    for i := 0 to |asks|
      invariant book.Valid() && book.BidSide() == EMPTY_SIDE
      invariant book.AskSide() == UpsertAll(Ask, book.depth, EMPTY_SIDE, asks[..i])
    {
      assert asks[..i + 1][..i] == asks[..i];
      book.UpsertAsk(asks[i]);
    }
    assert asks[..|asks|] == asks;
    for i := 0 to |bids|
      invariant book.Valid() && book.AskSide() == UpsertAll(Ask, book.depth, EMPTY_SIDE, asks)
      invariant book.BidSide() == UpsertAll(Bid, book.depth, EMPTY_SIDE, bids[..i])
    {
      assert bids[..i + 1][..i] == bids[..i];
      book.UpsertBid(bids[i]);
    }
    assert bids[..|bids|] == bids;
  }

  /** The digits of the whole part; converting a negative number to unsigned is undefined, read as 0. */
  function Digits(x: real): string
  {
    Decimals.Print(if x < 0.0 then 0 else x.Floor)
  }

  function Power10(n: nat): real
  {
    if n == 0 then 1.0 else 10.0 * Power10(n - 1)
  }

  /** A level as the checksum reads it: its price, then its volume in whole units. */
  function LevelDigits(l: Level, precision: nat): string
  {
    Digits(l.price) + Digits(l.volume * Power10(precision))
  }

  /** The levels of one side, best first. */
  function SideDigits(levels: seq<Level>, precision: nat): string
  {
    if levels == [] then ""
    else LevelDigits(levels[|levels| - 1], precision) + SideDigits(levels[..|levels| - 1], precision)
  }

  function ChecksumInput(asks: seq<Level>, bids: seq<Level>, precision: nat): string
  {
    SideDigits(asks, precision) + SideDigits(bids, precision)
  }

  lemma Associative<T>(a: seq<T>, b: seq<T>, c: seq<T>)
    ensures (a + b) + c == a + (b + c)
  {
  }

  lemma NextBest(s: seq<Level>, precision: nat)
    requires s != []
    ensures SideDigits(s, precision) == LevelDigits(s[|s| - 1], precision) + SideDigits(s[..|s| - 1], precision)
  {
  }

  /** Better levels come first: the digits of a side are those of its better part, then the rest. */
  lemma {:induction false} BestFirst(worse: seq<Level>, better: seq<Level>, precision: nat)
    ensures SideDigits(worse + better, precision) == SideDigits(better, precision) + SideDigits(worse, precision)
  {
    if better == [] {
      assert worse + better == worse;
    } else {
      var front, best := better[..|better| - 1], better[|better| - 1];
      BestFirst(worse, front, precision);
      assert (worse + better)[..|worse + better| - 1] == worse + front && (worse + better)[|worse + better| - 1] == best;
      NextBest(worse + better, precision);
      NextBest(better, precision);
      Associative(LevelDigits(best, precision), SideDigits(front, precision), SideDigits(worse, precision));
    }
  }

  lemma OneLevel(l: Level, precision: nat)
    ensures SideDigits([l], precision) == LevelDigits(l, precision)
  {
    assert [l][..0] == [] && SideDigits([], precision) == "";
    assert LevelDigits(l, precision) + "" == LevelDigits(l, precision);
  }

  /** The checksum reads the best ask first and the worst bid last. */
  lemma ChecksumOrder(asks: seq<Level>, bids: seq<Level>, ask: Level, bid: Level, precision: nat)
    ensures ChecksumInput(asks + [ask], [bid] + bids, precision)
            == LevelDigits(ask, precision) + ChecksumInput(asks, bids, precision) + LevelDigits(bid, precision)
  {
    var a, b := LevelDigits(ask, precision), LevelDigits(bid, precision);
    var as', bs := SideDigits(asks, precision), SideDigits(bids, precision);
    BestFirst(asks, [ask], precision);
    BestFirst([bid], bids, precision);
    OneLevel(ask, precision);
    OneLevel(bid, precision);
    Associative(a + as', bs, b);
    Associative(a, as', bs);
  }

  /** A number is read as its whole part. */
  lemma DigitsAre(x: real, n: nat)
    requires n as real <= x < (n + 1) as real
    ensures Digits(x) == Decimals.Print(n)
  {
  }

  /** A level is read as its price, then its volume in units of its precision: 3.0 at a precision of
      one decimal is 30. */
  lemma LevelIsPriceThenVolume()
    ensures LevelDigits(Level(12.0, 3.0, 0), 1) == "1230"
  {
    assert Power10(0) == 1.0 && Power10(1) == 10.0;
    assert Decimals.Print(1) == "1" && Decimals.Print(3) == "3";
    assert Decimals.Print(12) == "1" + "2" && Decimals.Print(30) == "3" + "0";
    assert Digits(12.0) == "12" && Digits(3.0 * Power10(1)) == "30";
  }

  /** A level of an update is stored as it came, timestamp included. */
  lemma StoredAsSent(d: Direction, depth: nat, s: Side, l: Level)
    requires Sorted(d, s.levels) && |s.levels| < depth && l.volume != 0.0
    ensures l in ApplyOne(d, depth, s, AsRaw(l)).levels
  {
    PlaceIsUpdate(d, s.levels, l);
    assert Stored(AsRaw(l)) == l;
  }

  method ApplyAsks(book: OrderBook, asks: seq<Level>)
    requires book.Valid()
    modifies book
    ensures book.Valid() && book.BidSide() == old(book.BidSide())
    ensures book.AskSide() == ApplyAll(Ask, book.depth, old(book.AskSide()), AsRaws(asks))
  {
    for i := 0 to |asks|
      invariant book.Valid() && book.BidSide() == old(book.BidSide())
      invariant book.AskSide() == ApplyAll(Ask, book.depth, old(book.AskSide()), AsRaws(asks)[..i])
    {
      assert AsRaws(asks)[..i + 1][..i] == AsRaws(asks)[..i];
      if asks[i].volume == 0.0 {
        book.DeleteAsk(asks[i].price);
      } else {
        book.UpsertAsk(asks[i]);
      }
    }
    assert AsRaws(asks)[..|asks|] == AsRaws(asks);
  }

  method ApplyBids(book: OrderBook, bids: seq<Level>)
    requires book.Valid()
    modifies book
    ensures book.Valid() && book.AskSide() == old(book.AskSide())
    ensures book.BidSide() == ApplyAll(Bid, book.depth, old(book.BidSide()), AsRaws(bids))
  {
    for i := 0 to |bids|
      invariant book.Valid() && book.AskSide() == old(book.AskSide())
      invariant book.BidSide() == ApplyAll(Bid, book.depth, old(book.BidSide()), AsRaws(bids)[..i])
    {
      assert AsRaws(bids)[..i + 1][..i] == AsRaws(bids)[..i];
      if bids[i].volume == 0.0 {
        book.DeleteBid(bids[i].price);
      } else {
        book.UpsertBid(bids[i]);
      }
    }
    assert AsRaws(bids)[..|bids|] == AsRaws(bids);
  }

  /** `checksum` is the one the message brings, if any, and `crc` the library's checksum function. */
  method OnOrderBookUpdate(
      book: OrderBook, asks: seq<Level>, bids: seq<Level>,
      validate: bool, checksum: Option<nat>, crc: string -> nat, precision: nat)
    returns (valid: bool)
    requires book.Valid()
    modifies book
    ensures book.Valid()
    ensures !valid <==> validate && checksum.Some?
                        && crc(ChecksumInput(book.AskSide().levels, book.BidSide().levels, precision)) != checksum.value
    ensures book.AskSide() == ApplyAll(Ask, book.depth, old(book.AskSide()), AsRaws(asks))
    ensures book.BidSide() == ApplyAll(Bid, book.depth, old(book.BidSide()), AsRaws(bids))
  {
    ApplyAsks(book, asks);
    ApplyBids(book, bids);
    if validate && checksum.Some? {
      if crc(ChecksumInput(book.asks, book.bids, precision)) != checksum.value {
        return false;
      }
    }
    valid := true;
  }

  /** The book a snapshot stands for: per price, the level listed last. */
  function SnapshotBook(ls: seq<Level>): map<real, Level>
  {
    if ls == [] then map[] else SnapshotBook(ls[..|ls| - 1])[ls[|ls| - 1].price := ls[|ls| - 1]]
  }

  /** The snapshot's levels kept in order with no depth limit. */
  function PlaceAll(d: Direction, ls: seq<Level>): seq<Level>
  {
    if ls == [] then [] else Place(d, PlaceAll(d, ls[..|ls| - 1]), ls[|ls| - 1])
  }

  lemma {:induction false} UpsertsKeep(d: Direction, depth: nat, ls: seq<Level>)
    ensures var s, full := UpsertAll(d, depth, EMPTY_SIDE, ls).levels, PlaceAll(d, ls);
            && Sorted(d, s) && |s| <= depth && Sorted(d, full)
            && Truncation.Represents(full, SnapshotBook(ls)) && |full| == |SnapshotBook(ls)|
            && Truncation.Keeps(s, full, depth)
  {
    if ls != [] {
      var front, l := ls[..|ls| - 1], ls[|ls| - 1];
      UpsertsKeep(d, depth, front);
      var s, full, book := UpsertAll(d, depth, EMPTY_SIDE, front), PlaceAll(d, front), SnapshotBook(front);
      UpsertSorted(d, depth, s, l);
      Truncation.UpsertKeeps(d, depth, s, full, l, depth);
      PlaceSorted(d, full, l);
      Truncation.PlaceRepresents(d, full, book, l);
    }
  }

  /** After a snapshot each side is exactly the best `depth` levels of what the snapshot lists. */
  lemma SnapshotIsBest(d: Direction, depth: nat, ls: seq<Level>)
    ensures var s := UpsertAll(d, depth, EMPTY_SIDE, ls).levels;
            |s| == Min(|SnapshotBook(ls)|, depth) && Truncation.IsBest(d, SnapshotBook(ls), s)
  {
    UpsertsKeep(d, depth, ls);
    Truncation.KeepsOnlyTheBest(d, SnapshotBook(ls), PlaceAll(d, ls), UpsertAll(d, depth, EMPTY_SIDE, ls).levels, depth);
  }
}
