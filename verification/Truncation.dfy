/** How much of the unbounded book survives in a list cut off at `depth` levels. */
module Truncation {
  import opened Wrappers
  import opened Levels

  /** The unbounded book after a run of writes: for each price, the level last stored there. */
  function Unbounded(rs: seq<RawLevel>): map<real, Level>
  {
    if rs == [] then map[]
    else
      var m, r := Unbounded(rs[..|rs| - 1]), rs[|rs| - 1];
      if r.volume == 0.0 then m - {r.price} else m[r.price := Stored(r)]
  }

  function Deletes(rs: seq<RawLevel>): nat
  {
    if rs == [] then 0
    else Deletes(rs[..|rs| - 1]) + (if rs[|rs| - 1].volume == 0.0 then 1 else 0)
  }

  /** `best` lists the |best| best levels of the book `m`, best last. */
  ghost predicate IsBest(d: Direction, m: map<real, Level>, best: seq<Level>)
  {
    && Sorted(d, best)
    && (forall x :: x in best ==> x.price in m && m[x.price] == x)
    && (forall p, x :: p in m && m[p] !in best && x in best ==> Worse(d, p, x.price))
  }

  // ----- The book kept as a list without a limit -----

  /** The same edits with no depth limit. */
  function Listed(d: Direction, rs: seq<RawLevel>): seq<Level>
  {
    if rs == [] then []
    else
      var s, r := Listed(d, rs[..|rs| - 1]), rs[|rs| - 1];
      if r.volume == 0.0 then Remove(s, r.price) else Place(d, s, Stored(r))
  }

  ghost predicate Represents(s: seq<Level>, m: map<real, Level>)
  {
    && (forall x :: x in s ==> x.price in m && m[x.price] == x)
    && (forall p :: p in m ==> m[p].price == p && m[p] in s)
  }

  lemma PlaceRepresents(d: Direction, s: seq<Level>, m: map<real, Level>, l: Level)
    requires Sorted(d, s) && Represents(s, m) && |s| == |m|
    ensures Represents(Place(d, s, l), m[l.price := l]) && |Place(d, s, l)| == |m[l.price := l]|
  {
    PlaceMembers(d, s, l);
    PlaceSorted(d, s, l);
    PlaceMatches(s, Place(d, s, l), m, l);
    assert m[l.price := l].Keys == m.Keys + {l.price};
    if l.price in m {
      assert m[l.price] in s;
    }
  }

  lemma PlaceMatches(s: seq<Level>, t: seq<Level>, m: map<real, Level>, l: Level)
    requires Represents(s, m) && forall x :: x in t <==> x == l || (x in s && x.price != l.price)
    ensures Represents(t, m[l.price := l])
  {
    var m' := m[l.price := l];
    forall p | p in m'
      ensures m'[p].price == p && m'[p] in t
    {
      assert p != l.price ==> m[p].price == p && m[p] in s;
    }
  }

  lemma RemoveRepresents(d: Direction, s: seq<Level>, m: map<real, Level>, p: real)
    requires Sorted(d, s) && Represents(s, m) && |s| == |m|
    ensures Represents(Remove(s, p), m - {p}) && |Remove(s, p)| == |m - {p}|
  {
    RemoveIsDelete(d, s, p);
    assert (m - {p}).Keys == m.Keys - {p};
    assert (exists x :: x in s && x.price == p) <==> p in m;
  }

  lemma {:induction false} ListedIsUnbounded(d: Direction, rs: seq<RawLevel>)
    ensures Sorted(d, Listed(d, rs))
    ensures Represents(Listed(d, rs), Unbounded(rs))
    ensures |Listed(d, rs)| == |Unbounded(rs)|
  {
    if rs != [] {
      var front, r := rs[..|rs| - 1], rs[|rs| - 1];
      ListedIsUnbounded(d, front);
      var s := Listed(d, front);
      if r.volume == 0.0 {
        RemoveRepresents(d, s, Unbounded(front), r.price);
        RemoveIsDelete(d, s, r.price);
      } else {
        PlaceRepresents(d, s, Unbounded(front), Stored(r));
        PlaceSorted(d, s, Stored(r));
      }
    }
  }

  // ----- The list with the limit against the list without -----

  /** The `c` best levels of `full` are all in `cut`, and `cut` holds nothing else than levels of `full`. */
  ghost predicate Keeps(cut: seq<Level>, full: seq<Level>, c: nat)
  {
    && (forall x :: x in cut ==> x in full)
    && (forall i :: 0 <= i < |full| && |full| - c <= i ==> full[i] in cut)
  }

  /** A sorted list inside another cannot be longer than what lies at or above its worst level. */
  lemma {:induction false} Embedded(d: Direction, s: seq<Level>, t: seq<Level>, i: nat)
    requires Sorted(d, s) && Sorted(d, t)
    requires forall x :: x in s ==> x in t
    requires s != [] && i < |t| && t[i] == s[0]
    ensures |s| <= |t| - i
  {
    if |s| > 1 {
      assert s[1] in t;
      var j :| 0 <= j < |t| && t[j] == s[1];
      var rest := s[1..];
      assert Worse(d, t[i].price, t[j].price);
      assert forall x :: x in rest ==> x in s;
      Embedded(d, rest, t, j);
    }
  }

  /** Every level that `Place` leaves at rank `i` from the end had that rank or a better one. */
  lemma PlaceRank(d: Direction, s: seq<Level>, l: Level, i: nat) returns (j: nat)
    requires Sorted(d, s) && i < |Place(d, s, l)| && Place(d, s, l)[i] != l
    ensures j < |s| && s[j] == Place(d, s, l)[i] && |s| - j <= |Place(d, s, l)| - i
    ensures s[j].price != l.price
  {
    PlaceShape(d, s, l);
    PlaceSorted(d, s, l);
    var t, pos, skip := Place(d, s, l), Position(d, s, l), Replaced(d, s, l);
    assert t[pos] == l;
    assert Worse(d, t[i].price, t[pos].price) || Worse(d, t[pos].price, t[i].price);
    j := if i < pos then i else i - 1 + skip;
  }

  lemma PlaceKeeps(d: Direction, cut: seq<Level>, full: seq<Level>, l: Level, c: nat)
    requires Sorted(d, cut) && Sorted(d, full) && Keeps(cut, full, c)
    ensures Keeps(Place(d, cut, l), Place(d, full, l), c)
  {
    PlaceMembers(d, cut, l);
    PlaceMembers(d, full, l);
    var full' := Place(d, full, l);
    forall i | 0 <= i < |full'| && |full'| - c <= i
      ensures full'[i] in Place(d, cut, l)
    {
      if full'[i] != l {
        var j := PlaceRank(d, full, l, i);
        assert full[j] in cut;
      }
    }
  }

  lemma TrimKeeps(d: Direction, cut: seq<Level>, full: seq<Level>, c: nat)
    requires Sorted(d, cut) && Sorted(d, full) && Keeps(cut, full, c) && |cut| > c
    ensures Keeps(cut[1..], full, c)
  {
    assert cut == [cut[0]] + cut[1..];
    forall i | 0 <= i < |full| && |full| - c <= i
      ensures full[i] in cut[1..]
    {
      if cut[0] == full[i] {
        Embedded(d, cut, full, i);
        assert false;
      }
    }
  }

  lemma UpsertKeeps(d: Direction, depth: nat, s: Side, full: seq<Level>, l: Level, c: nat)
    requires Sorted(d, s.levels) && Sorted(d, full) && Keeps(s.levels, full, c) && c <= depth
    ensures Keeps(Upsert(d, depth, s, l).levels, Place(d, full, l), c)
  {
    PlaceKeeps(d, s.levels, full, l, c);
    PlaceSorted(d, s.levels, l);
    PlaceSorted(d, full, l);
    if |Place(d, s.levels, l)| > depth {
      TrimKeeps(d, Place(d, s.levels, l), Place(d, full, l), c);
    }
  }

  lemma {:induction false} DeleteKeeps(d: Direction, s: seq<Level>, full: seq<Level>, p: real, c: nat)
    requires Sorted(d, s) && Sorted(d, full) && Keeps(s, full, c) && c > 0
    ensures Keeps(Remove(s, p), Remove(full, p), c - 1)
  {
    RemoveIsDelete(d, s, p);
    RemoveIsDelete(d, full, p);
    var full' := Remove(full, p);
    forall i | 0 <= i < |full'| && |full'| - (c - 1) <= i
      ensures full'[i] in Remove(s, p)
    {
      var x := full'[i];
      assert x in full' && x in full;
      var j :| 0 <= j < |full| && full[j] == x;
      RemoveRank(d, full, p, i, j);
      assert full[j] in s;
    }
  }

  /** Deleting one level moves no other level more than one rank towards the best. */
  lemma {:induction false} RemoveRank(d: Direction, s: seq<Level>, p: real, i: nat, j: nat)
    requires Sorted(d, s)
    requires i < |Remove(s, p)| && j < |s| && Remove(s, p)[i] == s[j]
    ensures |s| - j <= |Remove(s, p)| - i + 1
  {
    var last := |s| - 1;
    var front := s[..last];
    assert forall k :: 0 <= k < last ==> front[k] == s[k] && Worse(d, s[k].price, s[last].price);
    if s[last].price == p {
      assert forall a, b :: 0 <= a < b <= last ==> s[a] != s[b];
    } else if i < |Remove(front, p)| && j < last {
      RemoveRank(d, front, p, i, j);
    } else {
      RemoveIsDelete(d, front, p);
      assert i < |Remove(front, p)| ==> Remove(front, p)[i] in front;
    }
  }

  lemma {:induction false} RunKeeps(d: Direction, depth: nat, rs: seq<RawLevel>)
    ensures Keeps(ApplyAll(d, depth, EMPTY_SIDE, rs).levels, Listed(d, rs), Max(0, depth - Deletes(rs)))
  {
    if rs != [] {
      var front, r := rs[..|rs| - 1], rs[|rs| - 1];
      RunKeeps(d, depth, front);
      ApplyAllSorted(d, depth, EMPTY_SIDE, front);
      ListedIsUnbounded(d, front);
      var s, full, c := ApplyAll(d, depth, EMPTY_SIDE, front), Listed(d, front), Max(0, depth - Deletes(front));
      if r.volume != 0.0 {
        UpsertKeeps(d, depth, s, full, Stored(r), c);
      } else if c > 0 {
        DeleteKeeps(d, s.levels, full, r.price, c);
      } else {
        RemoveIsDelete(d, s.levels, r.price);
        RemoveIsDelete(d, full, r.price);
      }
    }
  }

  lemma LastIsBest(d: Direction, s: seq<Level>)
    requires Sorted(d, s) && s != []
    ensures var best := s[|s| - 1];
            && best in s && (forall x :: x in s ==> x == best || Worse(d, x.price, best.price))
            && (forall x :: x in s[..|s| - 1] ==> x in s && x != best)
  {
  }

  lemma SameLast(d: Direction, cut: seq<Level>, full: seq<Level>, m: nat)
    requires Sorted(d, cut) && Sorted(d, full) && Keeps(cut, full, m) && 0 < m <= |full|
    ensures cut != [] && cut[|cut| - 1] == full[|full| - 1]
    ensures Keeps(cut[..|cut| - 1], full[..|full| - 1], m - 1)
  {
    var best := full[|full| - 1];
    assert best in cut;
    LastIsBest(d, cut);
    LastIsBest(d, full);
    assert cut[|cut| - 1] == best;
    var cut', full' := cut[..|cut| - 1], full[..|full| - 1];
    assert cut == cut' + [best] && full == full' + [best];
    forall x | x in cut'
      ensures x in full'
    {
      assert x in cut && x in full;
    }
    forall k | 0 <= k < |full'| && |full'| - (m - 1) <= k
      ensures full'[k] in cut'
    {
      assert full[k] in cut && full[k] != best;
    }
  }

  lemma TailGrows(s: seq<Level>, m: nat)
    requires 0 < m <= |s|
    ensures var front := s[..|s| - 1]; s[|s| - m..] == front[|front| - (m - 1)..] + [s[|s| - 1]]
  {
  }

  /** The best `m` levels of the longer list are the last `m` of the shorter. */
  lemma {:induction false} SameTail(d: Direction, cut: seq<Level>, full: seq<Level>, m: nat)
    requires Sorted(d, cut) && Sorted(d, full) && Keeps(cut, full, m) && m <= |full|
    ensures m <= |cut| && cut[|cut| - m..] == full[|full| - m..]
  {
    if m > 0 {
      SameLast(d, cut, full, m);
      var cut', full' := cut[..|cut| - 1], full[..|full| - 1];
      SameTail(d, cut', full', m - 1);
      TailGrows(cut, m);
      TailGrows(full, m);
    }
  }

  lemma KeepsFewer(cut: seq<Level>, full: seq<Level>, c: nat, m: nat)
    requires Keeps(cut, full, c) && m <= c
    ensures Keeps(cut, full, m)
  {
  }

  lemma KeepsTheBest(d: Direction, f: map<real, Level>, full: seq<Level>, cut: seq<Level>, c: nat)
    requires Sorted(d, cut) && Sorted(d, full) && Represents(full, f) && |full| == |f|
    requires Keeps(cut, full, c)
    ensures var m := Min(|f|, c); m <= |cut| && IsBest(d, f, cut[|cut| - m..])
  {
    var m := Min(|f|, c);
    KeepsFewer(cut, full, c, m);
    TailOfCut(d, f, full, cut, m);
  }

  lemma TailOfCut(d: Direction, f: map<real, Level>, full: seq<Level>, cut: seq<Level>, m: nat)
    requires Sorted(d, cut) && Sorted(d, full) && Represents(full, f)
    requires Keeps(cut, full, m) && m <= |full|
    ensures m <= |cut| && IsBest(d, f, cut[|cut| - m..])
  {
    SameTail(d, cut, full, m);
    assert cut[|cut| - m..] == full[|full| - m..];
    TailIsBest(d, f, full, m);
  }

  // ----- Main results -----

  /** There is only one list of the `n` best levels of a book. */
  lemma BestIsUnique(d: Direction, m: map<real, Level>, s: seq<Level>, t: seq<Level>)
    requires forall p :: p in m ==> m[p].price == p
    requires IsBest(d, m, s) && IsBest(d, m, t) && |s| == |t|
    ensures s == t
  {
    BestIsIncluded(d, m, s, t);
    BestIsIncluded(d, m, t, s);
    SortedUnique(d, s, t);
  }

  lemma BestIsIncluded(d: Direction, m: map<real, Level>, s: seq<Level>, t: seq<Level>)
    requires forall p :: p in m ==> m[p].price == p
    requires IsBest(d, m, s) && IsBest(d, m, t) && |s| == |t|
    ensures forall x :: x in s ==> x in t
  {
    forall x | x in s
      ensures x in t
    {
      if x !in t {
        // Then every level of `t` is better than `x`, so `t` fits above `x` inside `s`.
        forall y | y in t
          ensures y in s && y != s[0]
        {
          assert Worse(d, x.price, y.price);
          assert m[y.price] !in s ==> Worse(d, y.price, x.price);
          assert forall i :: 0 < i < |s| ==> Worse(d, s[0].price, s[i].price);
        }
        var i :| 0 <= i < |t| && t[i] == t[0];
        var j :| 0 <= j < |s| && s[j] == t[0];
        Embedded(d, t, s, j);
        assert false;
      }
    }
  }

  /** After any run of writes with `k` deletes, the best min(|F|, max(0, depth - k)) levels of
      the unbounded book F are, in order, the last levels of the truncated list. */
  lemma TruncationBound(d: Direction, depth: nat, rs: seq<RawLevel>)
    ensures var s, f := ApplyAll(d, depth, EMPTY_SIDE, rs).levels, Unbounded(rs);
            var m := Min(|f|, Max(0, depth - Deletes(rs)));
            m <= |s| <= depth && IsBest(d, f, s[|s| - m..])
  {
    ApplyAllSorted(d, depth, EMPTY_SIDE, rs);
    ListedIsUnbounded(d, rs);
    RunKeeps(d, depth, rs);
    KeepsTheBest(d, Unbounded(rs), Listed(d, rs), ApplyAll(d, depth, EMPTY_SIDE, rs).levels, Max(0, depth - Deletes(rs)));
  }

  lemma TailIsBest(d: Direction, f: map<real, Level>, full: seq<Level>, m: nat)
    requires Sorted(d, full) && Represents(full, f) && m <= |full|
    ensures IsBest(d, f, full[|full| - m..])
  {
  }

  /** A list of at most `depth` levels that keeps the `depth` best has exactly those. */
  lemma KeepsOnlyTheBest(d: Direction, f: map<real, Level>, full: seq<Level>, cut: seq<Level>, depth: nat)
    requires Sorted(d, cut) && Sorted(d, full) && Represents(full, f) && |full| == |f|
    requires Keeps(cut, full, depth) && |cut| <= depth
    ensures |cut| == Min(|f|, depth) && IsBest(d, f, cut)
  {
    KeepsTheBest(d, f, full, cut, depth);
    if cut != [] {
      assert cut[0] in cut;
      var i :| 0 <= i < |full| && full[i] == cut[0];
      Embedded(d, cut, full, i);
    }
    assert cut[|cut| - |cut|..] == cut;
  }

  /** With no deletes the truncated list is exactly the best `depth` levels of the book. */
  lemma NoDeletesExact(d: Direction, depth: nat, rs: seq<RawLevel>)
    requires Deletes(rs) == 0
    ensures var s, f := ApplyAll(d, depth, EMPTY_SIDE, rs).levels, Unbounded(rs);
            |s| == Min(|f|, depth) && IsBest(d, f, s)
  {
    ApplyAllSorted(d, depth, EMPTY_SIDE, rs);
    ListedIsUnbounded(d, rs);
    RunKeeps(d, depth, rs);
    KeepsOnlyTheBest(d, Unbounded(rs), Listed(d, rs), ApplyAll(d, depth, EMPTY_SIDE, rs).levels, depth);
  }

  // ----- The bound is reached -----

  /** Levels at prices lo + 1 to hi. */
  function Rungs(lo: nat, hi: nat): seq<Level>
    requires lo <= hi
  {
    seq(hi - lo, i requires 0 <= i => Level((lo + 1 + i) as real, 1.0, 0))
  }

  /** Bids at prices 1 to n. */
  function Rise(n: nat): seq<RawLevel>
  {
    if n == 0 then [] else Rise(n - 1) + [RawLevel(n as real, 1.0, None)]
  }

  /** The bids of `Rise`, followed by the deletion of the best `k` of them. */
  function RiseAndFall(n: nat, k: nat): seq<RawLevel>
    requires k <= n
  {
    if k == 0 then Rise(n) else RiseAndFall(n, k - 1) + [RawLevel((n - k + 1) as real, 0.0, None)]
  }

  lemma RungsSteps(lo: nat, hi: nat)
    requires lo <= hi
    ensures Place(Bid, Rungs(lo, hi), Level((hi + 1) as real, 1.0, 0)) == Rungs(lo, hi + 1)
    ensures Rungs(lo, hi + 1)[1..] == Rungs(lo + 1, hi + 1)
    ensures Remove(Rungs(lo, hi + 1), (hi + 1) as real) == Rungs(lo, hi)
  {
    ScanFindsPosition(Bid, Rungs(lo, hi), Level((hi + 1) as real, 1.0, 0), hi - lo);
    assert Rungs(lo, hi + 1)[..hi - lo] == Rungs(lo, hi);
  }

  ghost predicate RunsTo(depth: nat, rs: seq<RawLevel>, lo: nat, hi: nat, k: nat)
  {
    && lo <= hi
    && ApplyAll(Bid, depth, EMPTY_SIDE, rs).levels == Rungs(lo, hi)
    && Listed(Bid, rs) == Rungs(0, hi)
    && Deletes(rs) == k
  }

  lemma RiseUpserts(depth: nat, s: Side, lo: nat, n: nat)
    requires lo < n && s.levels == Rungs(lo, n - 1)
    ensures Upsert(Bid, depth, s, Level(n as real, 1.0, 0)).levels
            == if n - lo > depth then Rungs(lo + 1, n) else Rungs(lo, n)
  {
    RungsSteps(lo, n - 1);
    assert |Rungs(lo, n)| == n - lo;
  }

  lemma RiseApplied(depth: nat, rs: seq<RawLevel>, lo: nat, n: nat)
    requires lo < n && ApplyAll(Bid, depth, EMPTY_SIDE, rs).levels == Rungs(lo, n - 1)
    ensures ApplyAll(Bid, depth, EMPTY_SIDE, rs + [RawLevel(n as real, 1.0, None)]).levels
            == if n - lo > depth then Rungs(lo + 1, n) else Rungs(lo, n)
  {
    var r := RawLevel(n as real, 1.0, None);
    assert (rs + [r])[..|rs|] == rs;
    RiseUpserts(depth, ApplyAll(Bid, depth, EMPTY_SIDE, rs), lo, n);
  }

  lemma RiseListed(rs: seq<RawLevel>, n: nat)
    requires n > 0 && Listed(Bid, rs) == Rungs(0, n - 1)
    ensures var rs' := rs + [RawLevel(n as real, 1.0, None)]; Listed(Bid, rs') == Rungs(0, n) && Deletes(rs') == Deletes(rs)
  {
    var r := RawLevel(n as real, 1.0, None);
    assert (rs + [r])[..|rs|] == rs;
    RungsSteps(0, n - 1);
  }

  lemma RunsToRise(depth: nat, rs: seq<RawLevel>, n: nat)
    requires n > 0 && RunsTo(depth, rs, Max(0, n - 1 - depth), n - 1, 0)
    ensures RunsTo(depth, rs + [RawLevel(n as real, 1.0, None)], Max(0, n - depth), n, 0)
  {
    RiseApplied(depth, rs, Max(0, n - 1 - depth), n);
    RiseListed(rs, n);
  }

  lemma RunsToFall(depth: nat, rs: seq<RawLevel>, lo: nat, hi: nat, k: nat)
    requires RunsTo(depth, rs, lo, hi + 1, k) && lo <= hi
    ensures RunsTo(depth, rs + [RawLevel((hi + 1) as real, 0.0, None)], lo, hi, k + 1)
  {
  }

  lemma {:induction false} RiseRuns(depth: nat, n: nat)
    ensures RunsTo(depth, Rise(n), Max(0, n - depth), n, 0)
  {
    if n > 0 {
      RiseRuns(depth, n - 1);
      RunsToRise(depth, Rise(n - 1), n);
    }
  }

  lemma {:induction false} FallRuns(depth: nat, n: nat, k: nat)
    requires k <= n && Max(0, n - depth) <= n - k
    ensures RunsTo(depth, RiseAndFall(n, k), Max(0, n - depth), n - k, k)
    decreases k
  {
    if k == 0 {
      RiseRuns(depth, n);
    } else {
      FallRuns(depth, n, k - 1);
      RunsToFall(depth, RiseAndFall(n, k - 1), Max(0, n - depth), n - k, k - 1);
    }
  }

  /** No better bound holds: for every depth and every number of deletes up to it there is a run
      that leaves depth - k levels of a book of `depth` levels. */
  lemma BoundIsReached(depth: nat, k: nat)
    requires k <= depth
    ensures exists rs :: Deletes(rs) == k && |Unbounded(rs)| == depth
                         && |ApplyAll(Bid, depth, EMPTY_SIDE, rs).levels| == depth - k
  {
    var rs := RiseAndFall(depth + k, k);
    FallRuns(depth, depth + k, k);
    ListedIsUnbounded(Bid, rs);
    assert |Unbounded(rs)| == depth && |ApplyAll(Bid, depth, EMPTY_SIDE, rs).levels| == depth - k;
  }
}
