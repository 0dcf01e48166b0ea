/** Applying the same absolute writes to a truncated list more than once. */
module FanOuts {
  import opened Wrappers
  import opened Levels

  ghost function Prices(s: seq<Level>): set<real>
  {
    set x | x in s :: x.price
  }

  ghost function RawPrices(rs: seq<RawLevel>): set<real>
  {
    set r | r in rs :: r.price
  }

  /** The last write to `p`, if there is one. */
  function LastRaw(rs: seq<RawLevel>, p: real): Option<RawLevel>
  {
    if rs == [] then None
    else if rs[|rs| - 1].price == p then Some(rs[|rs| - 1])
    else LastRaw(rs[..|rs| - 1], p)
  }

  function Times(d: Direction, depth: nat, s: Side, rs: seq<RawLevel>, n: nat): Side
  {
    if n == 0 then s else ApplyAll(d, depth, Times(d, depth, s, rs, n - 1), rs)
  }

  /** A sorted list has at most as many levels as there are prices to take. */
  lemma {:induction false} FewPrices(d: Direction, s: seq<Level>, ps: set<real>)
    requires Sorted(d, s) && forall x :: x in s ==> x.price in ps
    ensures |s| <= |ps|
  {
    if s != [] {
      var front, last := s[..|s| - 1], s[|s| - 1];
      assert last in s;
      forall x | x in front
        ensures x.price in ps - {last.price}
      {
        assert x in s;
      }
      FewPrices(d, front, ps - {last.price});
    }
  }

  /** While all prices together fit the depth nothing is evicted, and a price holds its last write. */
  lemma {:induction false} RoomyApply(d: Direction, depth: nat, s: Side, rs: seq<RawLevel>, ps: set<real>)
    requires Sorted(d, s.levels) && |ps| <= depth
    requires (forall x :: x in s.levels ==> x.price in ps) && (forall r :: r in rs ==> r.price in ps)
    ensures var t := ApplyAll(d, depth, s, rs);
            && Sorted(d, t.levels) && t.lost == s.lost
            && (forall x :: x in t.levels ==> x.price in ps)
            && forall x :: x in t.levels <==>
                 var last := LastRaw(rs, x.price);
                 if last.Some? then last.value.volume != 0.0 && x == Stored(last.value) else x in s.levels
  {
    if rs != [] {
      var front, r := rs[..|rs| - 1], rs[|rs| - 1];
      assert r in rs;
      RoomyApply(d, depth, s, front, ps);
      var mid := ApplyAll(d, depth, s, front);
      if r.volume == 0.0 {
        RemoveIsDelete(d, mid.levels, r.price);
      } else {
        PlaceIsUpdate(d, mid.levels, Stored(r));
        FewPrices(d, Place(d, mid.levels, Stored(r)), ps);
      }
    }
  }

  /** Writing the same update again changes nothing, however often, when the prices of the list
      and of the update together number at most `depth`. */
  lemma {:induction false} RepeatedOnce(d: Direction, depth: nat, s: Side, rs: seq<RawLevel>, n: nat)
    requires Sorted(d, s.levels) && |Prices(s.levels) + RawPrices(rs)| <= depth && n > 0
    ensures Times(d, depth, s, rs, n) == ApplyAll(d, depth, s, rs)
  {
    var ps := Prices(s.levels) + RawPrices(rs);
    var once := ApplyAll(d, depth, s, rs);
    assert (forall x :: x in s.levels ==> x.price in ps) && (forall r :: r in rs ==> r.price in ps);
    if n > 1 {
      RepeatedOnce(d, depth, s, rs, n - 1);
      RoomyApply(d, depth, s, rs, ps);
      RoomyApply(d, depth, once, rs, ps);
      SortedUnique(d, once.levels, ApplyAll(d, depth, once, rs).levels);
    } else {
      assert Times(d, depth, s, rs, 0) == s;
    }
  }

  // ----- One price more than the depth is too many -----

  /** Prices that get better with `i`. */
  function Rung(d: Direction, depth: nat, i: int): real
  {
    if d == Bid then (i + 1) as real else (depth + 1 - i) as real
  }

  /** The rungs 1 to n. */
  function Ladder(d: Direction, depth: nat, n: nat): seq<Level>
  {
    seq(n, i requires 0 <= i => Level(Rung(d, depth, i + 1), 1.0, 0))
  }

  /** A write below the ladder. */
  function Low(d: Direction, depth: nat): RawLevel
  {
    RawLevel(Rung(d, depth, 0), 1.0, None)
  }

  /** The low write, then the deletion of the best rung. */
  function LowAndTop(d: Direction, depth: nat): seq<RawLevel>
  {
    [Low(d, depth), RawLevel(Rung(d, depth, depth), 0.0, None)]
  }

  lemma LowFirst(d: Direction, depth: nat, s: Side)
    ensures var rs := LowAndTop(d, depth);
            ApplyAll(d, depth, s, rs) == ApplyOne(d, depth, ApplyOne(d, depth, s, rs[0]), rs[1])
  {
    var rs := LowAndTop(d, depth);
    assert rs[..1] == [rs[0]] && [rs[0]][..0] == [];
    assert ApplyAll(d, depth, s, [rs[0]]) == ApplyOne(d, depth, s, rs[0]);
  }

  /** First time: the low level is placed and evicted, then the best level is deleted. */
  lemma LowEvicted(d: Direction, depth: nat)
    requires depth > 0
    ensures ApplyAll(d, depth, Side(Ladder(d, depth, depth), {}), LowAndTop(d, depth)).levels == Ladder(d, depth, depth - 1)
  {
    var s := Side(Ladder(d, depth, depth), {});
    LowFirst(d, depth, s);
    assert ApplyOne(d, depth, s, Low(d, depth)).levels == s.levels;
    RemoveAt(s.levels, depth - 1);
  }

  lemma LowPlaced(d: Direction, depth: nat)
    requires depth > 0
    ensures Place(d, Ladder(d, depth, depth - 1), Stored(Low(d, depth)))
            == [Stored(Low(d, depth))] + Ladder(d, depth, depth - 1)
  {
    var s := Ladder(d, depth, depth - 1);
    assert depth > 1 ==> Worse(d, Low(d, depth).price, s[0].price);
    assert [Stored(Low(d, depth))] + s == if s == [] then [Stored(Low(d, depth))] else [Stored(Low(d, depth))] + s;
  }

  /** Second time: there is room for the low level. */
  lemma LowStays(d: Direction, depth: nat, s: Side)
    requires depth > 0 && s.levels == Ladder(d, depth, depth - 1)
    ensures ApplyAll(d, depth, s, LowAndTop(d, depth)).levels == [Stored(Low(d, depth))] + Ladder(d, depth, depth - 1)
  {
    var placed := [Stored(Low(d, depth))] + Ladder(d, depth, depth - 1);
    LowFirst(d, depth, s);
    LowPlaced(d, depth);
    assert ApplyOne(d, depth, s, Low(d, depth)).levels == placed;
    RemoveNone(placed, Rung(d, depth, depth));
  }

  /** For every positive depth there is a full book and an update with a single price beyond it
      that a second application changes: the write evicted the first time finds room the second. */
  lemma OnePriceTooMany(d: Direction, depth: nat)
    requires depth > 0
    ensures var s, rs := Side(Ladder(d, depth, depth), {}), LowAndTop(d, depth);
            && Sorted(d, s.levels) && |s.levels| == depth
            && |Prices(s.levels) + RawPrices(rs)| <= depth + 1
            && Times(d, depth, s, rs, 2).levels != Times(d, depth, s, rs, 1).levels
  {
    LadderPrices(d, depth);
    LowChanges(d, depth, Side(Ladder(d, depth, depth), {}));
  }

  lemma LowChanges(d: Direction, depth: nat, s: Side)
    requires depth > 0 && s == Side(Ladder(d, depth, depth), {})
    ensures Times(d, depth, s, LowAndTop(d, depth), 2).levels != Times(d, depth, s, LowAndTop(d, depth), 1).levels
  {
    LowEvicted(d, depth);
    LowStays(d, depth, ApplyAll(d, depth, s, LowAndTop(d, depth)));
    TimesTwo(d, depth, s, LowAndTop(d, depth));
  }

  lemma TimesTwo(d: Direction, depth: nat, s: Side, rs: seq<RawLevel>)
    ensures Times(d, depth, s, rs, 1) == ApplyAll(d, depth, s, rs)
    ensures Times(d, depth, s, rs, 2) == ApplyAll(d, depth, ApplyAll(d, depth, s, rs), rs)
  {
    assert Times(d, depth, s, rs, 0) == s;
    assert Times(d, depth, s, rs, 1) == ApplyAll(d, depth, s, rs);
  }

  lemma LadderPrices(d: Direction, depth: nat)
    requires depth > 0
    ensures |Prices(Ladder(d, depth, depth)) + RawPrices(LowAndTop(d, depth))| <= depth + 1
  {
    var levels, rs := Ladder(d, depth, depth), LowAndTop(d, depth);
    assert levels[depth - 1] in levels;
    assert Prices(levels) + RawPrices(rs) == Prices(levels) + {rs[0].price};
    AtMostAsMany(levels);
  }

  lemma {:induction false} AtMostAsMany(s: seq<Level>)
    ensures |Prices(s)| <= |s|
  {
    if s != [] {
      var front, last := s[..|s| - 1], s[|s| - 1];
      AtMostAsMany(front);
      assert s == front + [last];
      assert Prices(s) == Prices(front) + {last.price};
    }
  }

  /** Applying an update again never changes a book, as long as the prices of both together
      number at most `bound`. */
  ghost predicate Idempotent(d: Direction, depth: nat, bound: nat)
  {
    forall s: Side, rs: seq<RawLevel>, n: nat ::
      Sorted(d, s.levels) && |s.levels| <= depth && |Prices(s.levels) + RawPrices(rs)| <= bound && n > 0
      ==> Times(d, depth, s, rs, n) == ApplyAll(d, depth, s, rs)
  }

  /** The threshold is the depth, on either side: one listener or many makes no difference for all
      books and updates with at most `bound` prices exactly if `bound` is at most the depth. */
  lemma IdempotentIff(d: Direction, depth: nat, bound: nat)
    requires depth > 0
    ensures Idempotent(d, depth, bound) <==> bound <= depth
  {
    if bound <= depth {
      forall s: Side, rs: seq<RawLevel>, n: nat
        | Sorted(d, s.levels) && |s.levels| <= depth && |Prices(s.levels) + RawPrices(rs)| <= bound && n > 0
        ensures Times(d, depth, s, rs, n) == ApplyAll(d, depth, s, rs)
      {
        RepeatedOnce(d, depth, s, rs, n);
      }
    } else {
      OnePriceTooMany(d, depth);
      var s, rs := Side(Ladder(d, depth, depth), {}), LowAndTop(d, depth);
      assert Times(d, depth, s, rs, 0) == s;
      assert Times(d, depth, s, rs, 1) == ApplyAll(d, depth, s, rs);
    }
  }
}
