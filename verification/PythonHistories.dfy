/** Which levels the Python book shows, told from the edits that led to it. */
module PythonHistories {
  import opened Wrappers
  import opened Levels
  import opened PythonBooks
  import FanOuts

  /** The side an edit writes, and the price. */
  function SideOf(e: Edit): Direction
  {
    if e.PutBid? || e.DropBid? then Bid else Ask
  }

  predicate Puts(e: Edit)
  {
    e.PutBid? || e.PutAsk?
  }

  /** The edit takes away a level of side `d` at `p`: by writing there, or by crossing it. */
  predicate Clears(e: Edit, d: Direction, p: real)
  {
    if SideOf(e) == d then e.price == p
    else Puts(e) && (if d == Bid then e.price <= p else p <= e.price)
  }

  /** The level was put by the `i`-th edit, and no later edit has taken it away. */
  ghost predicate StandsSince(edits: seq<Edit>, d: Direction, p: real, v: real, i: nat)
  {
    && i < |edits| && SideOf(edits[i]) == d && Puts(edits[i]) && edits[i].price == p && edits[i].volume == v
    && forall j :: i < j < |edits| ==> !Clears(edits[j], d, p)
  }

  ghost predicate Stands(edits: seq<Edit>, d: Direction, p: real, v: real)
  {
    exists i: nat :: StandsSince(edits, d, p, v, i)
  }

  function Listed(b: Book, d: Direction): seq<Level>
  {
    if d == Bid then b.bids else b.asks
  }

  /** The prices put on one side. */
  function PutPrices(edits: seq<Edit>, d: Direction): set<real>
  {
    set e | e in edits && SideOf(e) == d && Puts(e) :: e.price
  }

  ghost predicate Fits(depth: nat, edits: seq<Edit>)
  {
    forall d :: |PutPrices(edits, d)| <= depth
  }

  lemma StandsNext(edits: seq<Edit>, e: Edit, d: Direction, p: real, v: real)
    ensures Stands(edits + [e], d, p, v)
            <==> (SideOf(e) == d && Puts(e) && e.price == p && e.volume == v)
                 || (Stands(edits, d, p, v) && !Clears(e, d, p))
  {
    var all, n := edits + [e], |edits|;
    assert all[n] == e;
    if Stands(all, d, p, v) {
      var i: nat :| StandsSince(all, d, p, v, i);
      if i < n {
        assert forall j :: 0 <= j < n ==> all[j] == edits[j];
        assert StandsSince(edits, d, p, v, i);
      }
    }
    if SideOf(e) == d && Puts(e) && e.price == p && e.volume == v {
      assert StandsSince(all, d, p, v, n);
    }
    if Stands(edits, d, p, v) && !Clears(e, d, p) {
      var i: nat :| StandsSince(edits, d, p, v, i);
      assert StandsSince(all, d, p, v, i);
    }
  }

  /** The levels of the book are those that stand. */
  ghost predicate ShowsStanding(b: Book, edits: seq<Edit>)
  {
    forall d, x :: ShownAt(b, edits, d, x)
  }

  ghost predicate ShownAt(b: Book, edits: seq<Edit>, d: Direction, x: Level)
  {
    x in Listed(b, d) <==> x.timestamp == 0 && Stands(edits, d, x.price, x.volume)
  }

  lemma PutPricesNext(edits: seq<Edit>, e: Edit, d: Direction)
    ensures PutPrices(edits + [e], d)
            == PutPrices(edits, d) + if SideOf(e) == d && Puts(e) then {e.price} else {}
  {
    assert forall x :: x in edits + [e] <==> x in edits || x == e;
  }

  lemma StandingWasPut(edits: seq<Edit>, d: Direction, p: real, v: real)
    requires Stands(edits, d, p, v)
    ensures p in PutPrices(edits, d)
  {
    var i: nat :| StandsSince(edits, d, p, v, i);
    assert edits[i] in edits;
  }

  /** With room for all prices put, an upsert evicts nothing. */
  lemma RoomToPut(depth: nat, s: seq<Level>, d: Direction, ps: set<real>, l: Level)
    requires Sorted(d, s) && |ps| <= depth && l.price in ps && forall x :: x in s ==> x.price in ps
    ensures Trimmed(depth, Place(d, s, l)) == Place(d, s, l)
  {
    PlaceIsUpdate(d, s, l);
    FanOuts.FewPrices(d, Place(d, s, l), ps);
  }

  /** One edit, level by level, when nothing is evicted. */
  lemma EditShows(depth: nat, b: Book, e: Edit, d: Direction, x: Level, ps: set<real>)
    requires Uncrossed(depth, b)
    requires Puts(e) && SideOf(e) == d ==> |ps| <= depth && e.price in ps && forall y :: y in Listed(b, d) ==> y.price in ps
    ensures x in Listed(Apply(depth, b, e), d)
            <==> (SideOf(e) == d && Puts(e) && x == Level(e.price, e.volume, 0))
                 || (x in Listed(b, d) && !Clears(e, d, x.price))
  {
    if SideOf(e) == d {
      if Puts(e) {
        RoomToPut(depth, Listed(b, d), d, ps, Level(e.price, e.volume, 0));
        PlaceIsUpdate(d, Listed(b, d), Level(e.price, e.volume, 0));
      } else {
        RemoveIsDelete(d, Listed(b, d), e.price);
      }
    } else if Puts(e) {
      PopCrossedExact(d, Listed(b, d), e.price);
    }
  }

  lemma FitsBefore(depth: nat, edits: seq<Edit>, e: Edit)
    requires Fits(depth, edits + [e])
    ensures Fits(depth, edits)
  {
    forall d
      ensures |PutPrices(edits, d)| <= depth
    {
      PutPricesNext(edits, e, d);
      assert PutPrices(edits + [e], d) == PutPrices(edits, d) + (PutPrices(edits + [e], d) - PutPrices(edits, d));
    }
  }

  /** Over every run with no more prices put on a side than the depth, a level is in the book exactly
      if some edit put it there with that volume and no later edit wrote its price on its side or
      put a level on the other side at or through it. */
  lemma {:induction false} ShownIffStanding(depth: nat, edits: seq<Edit>)
    requires Fits(depth, edits)
    ensures ShowsStanding(Run(depth, edits), edits)
  {
    if edits != [] {
      var front, e := edits[..|edits| - 1], edits[|edits| - 1];
      assert edits == front + [e];
      FitsBefore(depth, front, e);
      ShownIffStanding(depth, front);
      RunUncrossed(depth, front);
      forall d, x: Level
        ensures ShownAt(Run(depth, edits), edits, d, x)
      {
        NextShown(depth, front, e, d, x);
      }
    }
  }

  lemma NextShown(depth: nat, edits: seq<Edit>, e: Edit, d: Direction, x: Level)
    requires Fits(depth, edits + [e]) && Uncrossed(depth, Run(depth, edits)) && ShowsStanding(Run(depth, edits), edits)
    ensures ShownAt(Apply(depth, Run(depth, edits), e), edits + [e], d, x)
  {
    var b, ps := Run(depth, edits), PutPrices(edits + [e], d);
    StandsNext(edits, e, d, x.price, x.volume);
    PutPricesNext(edits, e, d);
    forall y | y in Listed(b, d)
      ensures y.price in ps
    {
      assert ShownAt(b, edits, d, y);
      StandingWasPut(edits, d, y.price, y.volume);
    }
    assert ShownAt(b, edits, d, x);
    EditShows(depth, b, e, d, x, ps);
  }
}
