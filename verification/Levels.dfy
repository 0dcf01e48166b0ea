/** One side of an order book: a list of price levels kept sorted, best level last, and cut
    off at a fixed depth. The C++ book and the Python book both edit such lists. Prices are
    reals, so that one model covers the C++ integer ticks and the Python floats: nothing here
    uses more than their order. */
module Levels {
  import opened Wrappers

  datatype Direction = Bid | Ask

  datatype Level = Level(price: real, volume: real, timestamp: nat)

  /** A level as a message carries it: volume zero asks for the level to be deleted. */
  datatype RawLevel = RawLevel(price: real, volume: real, timestamp: Option<nat>)

  /** The list, with the prices evicted by the depth limit since the list was last cleared.
      The second part is bookkeeping of the proof: no decision depends on it. */
  datatype Side = Side(levels: seq<Level>, lost: set<real>)

  const EMPTY_SIDE := Side([], {})

  predicate Worse(d: Direction, p: real, q: real)
  {
    match d
    case Bid => p < q
    case Ask => p > q
  }

  ghost predicate Sorted(d: Direction, s: seq<Level>)
  {
    forall i, j :: 0 <= i < j < |s| ==> Worse(d, s[i].price, s[j].price)
  }

  // ----- The edits -----

  /** Puts `l` where it belongs, replacing a level at the same price. */
  function Place(d: Direction, s: seq<Level>, l: Level): seq<Level>
  {
    if s == [] then [l]
    else if s[0].price == l.price then [l] + s[1..]
    else if Worse(d, l.price, s[0].price) then [l] + s
    else [s[0]] + Place(d, s[1..], l)
  }

  function Upsert(d: Direction, depth: nat, s: Side, l: Level): Side
  {
    var placed := Place(d, s.levels, l);
    if |placed| > depth then Side(placed[1..], s.lost + {placed[0].price}) else Side(placed, s.lost)
  }

  function Remove(s: seq<Level>, p: real): seq<Level>
  {
    if s == [] then []
    else if s[|s| - 1].price == p then s[..|s| - 1]
    else Remove(s[..|s| - 1], p) + [s[|s| - 1]]
  }

  function Stored(r: RawLevel): Level
  {
    Level(r.price, r.volume, if r.timestamp.Some? then r.timestamp.value else 0)
  }

  function ApplyOne(d: Direction, depth: nat, s: Side, r: RawLevel): Side
  {
    if r.volume == 0.0 then s.(levels := Remove(s.levels, r.price)) else Upsert(d, depth, s, Stored(r))
  }

  function ApplyAll(d: Direction, depth: nat, s: Side, rs: seq<RawLevel>): Side
  {
    if rs == [] then s
    else ApplyOne(d, depth, ApplyAll(d, depth, s, rs[..|rs| - 1]), rs[|rs| - 1])
  }

  // ----- What the edits do, level by level -----

  /** The position `Place` works on: everything before it is worse than `l`. */
  function Position(d: Direction, s: seq<Level>, l: Level): (pos: nat)
    ensures pos <= |s|
    ensures forall i :: 0 <= i < pos ==> s[i].price != l.price && !Worse(d, l.price, s[i].price)
    ensures pos < |s| ==> s[pos].price == l.price || Worse(d, l.price, s[pos].price)
  {
    if s == [] || s[0].price == l.price || Worse(d, l.price, s[0].price) then 0
    else 1 + Position(d, s[1..], l)
  }

  /** 1 when `Place` replaces the level at its position, 0 when it inserts there. */
  function Replaced(d: Direction, s: seq<Level>, l: Level): (n: nat)
    ensures n <= 1 && Position(d, s, l) + n <= |s|
  {
    var pos := Position(d, s, l);
    if pos < |s| && s[pos].price == l.price then 1 else 0
  }

  lemma {:induction false} PlaceShape(d: Direction, s: seq<Level>, l: Level)
    ensures Place(d, s, l) == s[..Position(d, s, l)] + [l] + s[Position(d, s, l) + Replaced(d, s, l)..]
  {
    if !(s == [] || s[0].price == l.price || Worse(d, l.price, s[0].price)) {
      var rest := s[1..];
      PlaceShape(d, rest, l);
      var pos, skip := Position(d, rest, l), Replaced(d, rest, l);
      assert s[..pos + 1] == [s[0]] + rest[..pos] && s[pos + 1 + skip..] == rest[pos + skip..];
    }
  }

  /** A front-to-back scan that stops at the first price not worse than `l` finds the position. */
  lemma ScanFindsPosition(d: Direction, s: seq<Level>, l: Level, i: nat)
    requires i <= |s|
    requires forall j :: 0 <= j < i ==> s[j].price != l.price && !Worse(d, l.price, s[j].price)
    requires i < |s| ==> s[i].price == l.price || Worse(d, l.price, s[i].price)
    ensures i < |s| && s[i].price == l.price ==> Place(d, s, l) == s[i := l]
    ensures i == |s| || s[i].price != l.price ==> Place(d, s, l) == s[..i] + [l] + s[i..]
  {
    PlaceShape(d, s, l);
    assert i == Position(d, s, l);
  }

  lemma {:induction false} PlaceMembers(d: Direction, s: seq<Level>, l: Level)
    requires Sorted(d, s)
    ensures forall x :: x in Place(d, s, l) <==> x == l || (x in s && x.price != l.price)
    ensures Replaced(d, s, l) == 1 <==> exists x :: x in s && x.price == l.price
  {
    if s != [] {
      var head, rest := s[0], s[1..];
      assert forall x :: x in s <==> x == head || x in rest;
      assert forall x :: x in rest ==> Worse(d, head.price, x.price);
      PlaceMembers(d, rest, l);
    }
  }

  /** Putting `l` between a worse and a better part leaves the list sorted. */
  lemma JoinSorted(d: Direction, front: seq<Level>, l: Level, back: seq<Level>)
    requires Sorted(d, front) && Sorted(d, back)
    requires forall x :: x in front ==> Worse(d, x.price, l.price)
    requires forall x :: x in back ==> Worse(d, l.price, x.price)
    ensures Sorted(d, front + [l] + back)
  {
    var t, n := front + [l] + back, |front|;
    forall i, j | 0 <= i < j < |t|
      ensures Worse(d, t[i].price, t[j].price)
    {
      assert i < n ==> t[i] in front;
      assert j > n ==> t[j] in back;
    }
  }

  lemma PlaceSorted(d: Direction, s: seq<Level>, l: Level)
    requires Sorted(d, s)
    ensures Sorted(d, Place(d, s, l))
    ensures |Place(d, s, l)| == |s| + 1 - Replaced(d, s, l)
  {
    PlaceShape(d, s, l);
    var pos, skip := Position(d, s, l), Replaced(d, s, l);
    assert pos + skip < |s| ==> Worse(d, l.price, s[pos + skip].price);
    JoinSorted(d, s[..pos], l, s[pos + skip..]);
  }

  lemma PlaceIsUpdate(d: Direction, s: seq<Level>, l: Level)
    requires Sorted(d, s)
    ensures Sorted(d, Place(d, s, l))
    ensures forall x :: x in Place(d, s, l) <==> x == l || (x in s && x.price != l.price)
    ensures |Place(d, s, l)| == |s| + 1 - Replaced(d, s, l)
    ensures Replaced(d, s, l) == 1 <==> exists x :: x in s && x.price == l.price
  {
    PlaceSorted(d, s, l);
    PlaceMembers(d, s, l);
  }

  lemma UpsertSorted(d: Direction, depth: nat, s: Side, l: Level)
    requires Sorted(d, s.levels) && |s.levels| <= depth
    ensures var t := Upsert(d, depth, s, l); Sorted(d, t.levels) && |t.levels| <= depth
  {
    PlaceSorted(d, s.levels, l);
  }

  lemma {:induction false} RemoveAt(s: seq<Level>, i: nat)
    requires i < |s| && forall j :: i < j < |s| ==> s[j].price != s[i].price
    ensures Remove(s, s[i].price) == s[..i] + s[i + 1..]
  {
    if i < |s| - 1 {
      var front := s[..|s| - 1];
      RemoveAt(front, i);
      assert s[i + 1..] == front[i + 1..] + [s[|s| - 1]];
      assert front[..i] == s[..i];
    }
  }

  lemma {:induction false} RemoveNone(s: seq<Level>, p: real)
    requires forall j :: 0 <= j < |s| ==> s[j].price != p
    ensures Remove(s, p) == s
  {
    if s != [] {
      RemoveNone(s[..|s| - 1], p);
    }
  }

  /** Without its `i`-th level the list stays sorted and keeps the levels at all other prices. */
  lemma CutOut(d: Direction, s: seq<Level>, i: nat)
    requires Sorted(d, s) && i < |s|
    ensures var t := s[..i] + s[i + 1..];
            && Sorted(d, t) && |t| == |s| - 1
            && forall x :: x in t <==> x in s && x.price != s[i].price
  {
    assert s == s[..i] + [s[i]] + s[i + 1..];
    assert forall x :: x in s[..i] + s[i + 1..] <==> x in s[..i] || x in s[i + 1..];
  }

  lemma RemoveIsDelete(d: Direction, s: seq<Level>, p: real)
    requires Sorted(d, s)
    ensures Sorted(d, Remove(s, p))
    ensures forall x :: x in Remove(s, p) <==> x in s && x.price != p
    ensures |Remove(s, p)| == |s| - (if exists x :: x in s && x.price == p then 1 else 0)
  {
    if i :| 0 <= i < |s| && s[i].price == p {
      assert s[i] in s;
      RemoveAt(s, i);
      CutOut(d, s, i);
    } else {
      RemoveNone(s, p);
    }
  }

  /** A sorted list is determined by the levels in it. */
  lemma {:induction false} SortedUnique(d: Direction, s: seq<Level>, t: seq<Level>)
    requires Sorted(d, s) && Sorted(d, t)
    requires forall x :: x in s <==> x in t
    ensures s == t
  {
    if t != [] {
      assert t[|t| - 1] in s;
    }
    if s != [] {
      assert s[0] in t;
      var n, m := |s| - 1, |t| - 1;
      assert s[n] in t && t[m] in s;
      assert s[n] == t[m];
      forall x
        ensures x in s[..n] <==> x in t[..m]
      {
        if x in s[..n] { assert x in s && x != s[n]; assert x in t; }
        if x in t[..m] { assert x in t && x != t[m]; assert x in s; }
      }
      SortedUnique(d, s[..n], t[..m]);
      assert s == s[..n] + [s[n]] && t == t[..m] + [t[m]];
    }
  }

  lemma {:induction false} ApplyAllSorted(d: Direction, depth: nat, s: Side, rs: seq<RawLevel>)
    requires Sorted(d, s.levels) && |s.levels| <= depth
    ensures var t := ApplyAll(d, depth, s, rs); Sorted(d, t.levels) && |t.levels| <= depth
  {
    if rs != [] {
      var before := ApplyAll(d, depth, s, rs[..|rs| - 1]);
      ApplyAllSorted(d, depth, s, rs[..|rs| - 1]);
      RemoveIsDelete(d, before.levels, rs[|rs| - 1].price);
      UpsertSorted(d, depth, before, Stored(rs[|rs| - 1]));
    }
  }

  // ----- What the edits do, price by price -----

  /** The volume the list shows at a price; zero when the price has no level. */
  ghost function Quantity(s: seq<Level>, p: real): real
  {
    if exists i :: 0 <= i < |s| && s[i].price == p
    then var i :| 0 <= i < |s| && s[i].price == p; s[i].volume
    else 0.0
  }

  /** Better than everything the depth limit has evicted. */
  ghost predicate Clear(d: Direction, p: real, lost: set<real>)
  {
    forall x :: x in lost ==> Worse(d, x, p)
  }

  /** The value left at `p` by a list of absolute writes that starts from `v`. */
  function LastWrite(rs: seq<RawLevel>, p: real, v: real): real
  {
    if rs == [] then v
    else if rs[|rs| - 1].price == p then rs[|rs| - 1].volume
    else LastWrite(rs[..|rs| - 1], p, v)
  }

  lemma QuantityOf(d: Direction, s: seq<Level>, x: Level)
    requires Sorted(d, s) && x in s
    ensures Quantity(s, x.price) == x.volume
  {
  }

  lemma NoQuantity(s: seq<Level>, p: real)
    requires forall x :: x in s ==> x.price != p
    ensures Quantity(s, p) == 0.0
  {
  }

  /** Two sorted lists with the same level at `p` show the same volume there. */
  lemma SameQuantity(d: Direction, s: seq<Level>, t: seq<Level>, p: real)
    requires Sorted(d, s) && Sorted(d, t)
    requires forall x: Level :: x.price == p ==> (x in s <==> x in t)
    ensures Quantity(s, p) == Quantity(t, p)
  {
  }

  lemma ApplyOneWrites(d: Direction, depth: nat, s: Side, r: RawLevel, p: real)
    requires Sorted(d, s.levels)
    requires Clear(d, p, ApplyOne(d, depth, s, r).lost)
    ensures Quantity(ApplyOne(d, depth, s, r).levels, p) == if p == r.price then r.volume else Quantity(s.levels, p)
  {
    var t := ApplyOne(d, depth, s, r).levels;
    if r.volume == 0.0 {
      RemoveIsDelete(d, s.levels, r.price);
      if p == r.price { NoQuantity(t, p); } else { SameQuantity(d, s.levels, t, p); }
    } else {
      PlaceIsUpdate(d, s.levels, Stored(r));
      var placed := Place(d, s.levels, Stored(r));
      if |placed| > depth {
        assert placed[0].price in ApplyOne(d, depth, s, r).lost;
        assert placed == [placed[0]] + t;
      }
      SameQuantity(d, placed, t, p);
      if p == r.price { QuantityOf(d, placed, Stored(r)); } else { SameQuantity(d, s.levels, placed, p); }
    }
  }

  /** At every price better than all evicted ones, the truncated list shows what the writes
      say: the last write to the price, or the old value where there is none. */
  lemma {:induction false} ApplyAllWrites(d: Direction, depth: nat, s: Side, rs: seq<RawLevel>, p: real)
    requires Sorted(d, s.levels) && |s.levels| <= depth
    ensures s.lost <= ApplyAll(d, depth, s, rs).lost
    ensures Clear(d, p, ApplyAll(d, depth, s, rs).lost)
            ==> Quantity(ApplyAll(d, depth, s, rs).levels, p) == LastWrite(rs, p, Quantity(s.levels, p))
  {
    if rs != [] {
      var front := rs[..|rs| - 1];
      ApplyAllSorted(d, depth, s, front);
      ApplyAllWrites(d, depth, s, front, p);
      if Clear(d, p, ApplyAll(d, depth, s, rs).lost) {
        ApplyOneWrites(d, depth, ApplyAll(d, depth, s, front), rs[|rs| - 1], p);
      }
    }
  }

  /** Two lists of writes one after the other are one list. */
  lemma {:induction false} ApplyAllConcat(d: Direction, depth: nat, s: Side, a: seq<RawLevel>, b: seq<RawLevel>)
    ensures ApplyAll(d, depth, s, a + b) == ApplyAll(d, depth, ApplyAll(d, depth, s, a), b)
  {
    if b == [] {
      assert a + b == a;
    } else {
      ApplyAllConcat(d, depth, s, a, b[..|b| - 1]);
      assert (a + b)[..|a + b| - 1] == a + b[..|b| - 1];
    }
  }
}
