/** Cutting one side of a book, best level first, into groups narrower than an interval. */
module Groupings {
  import opened Levels

  /** The `j`-th best level; lists keep the best last. */
  function At(s: seq<Level>, j: nat): Level
    requires j < |s|
  {
    s[|s| - 1 - j]
  }

  /** How much worse than `p` the price `q` is. */
  function Away(d: Direction, p: real, q: real): real
  {
    if d.Bid? then p - q else q - p
  }

  /** The end of the group that started at price `anchor` and has reached position `j`. */
  function End(d: Direction, s: seq<Level>, interval: real, anchor: real, j: nat): (e: nat)
    requires j <= |s|
    ensures j <= e <= |s|
    ensures forall k :: j <= k < e ==> Away(d, anchor, At(s, k).price) < interval
    ensures e < |s| ==> interval <= Away(d, anchor, At(s, e).price)
    decreases |s| - j
  {
    if j < |s| && Away(d, anchor, At(s, j).price) < interval then End(d, s, interval, anchor, j + 1) else j
  }

  /** The volume of the levels from position `j` up to `e`. */
  function Volume(s: seq<Level>, j: nat, e: nat): real
    requires j <= e <= |s|
    decreases e - j
  {
    if j == e then 0.0 else At(s, j).volume + Volume(s, j + 1, e)
  }

  /** The ends of the groups that cover the levels from position `j` on. */
  function Ends(d: Direction, s: seq<Level>, interval: real, j: nat): seq<nat>
    requires j <= |s| && interval > 0.0
    decreases |s| - j
  {
    if j == |s| then []
    else
      var e := End(d, s, interval, At(s, j).price, j);
      [e] + Ends(d, s, interval, e)
  }

  /** The volumes of those groups. */
  function Sums(d: Direction, s: seq<Level>, interval: real, j: nat): seq<real>
    requires j <= |s| && interval > 0.0
    decreases |s| - j
  {
    if j == |s| then []
    else
      var e := End(d, s, interval, At(s, j).price, j);
      [Volume(s, j, e)] + Sums(d, s, interval, e)
  }

  // ----- Any other way to cut the side -----

  /** `ends` cuts the levels from position `j` on into consecutive non-empty groups, each with all
      its levels less than `interval` from its best one. */
  ghost predicate IsPartition(d: Direction, s: seq<Level>, interval: real, j: nat, ends: seq<nat>)
    decreases |ends|
  {
    if ends == [] then j == |s|
    else
      && j < ends[0] <= |s|
      && Away(d, At(s, j).price, At(s, ends[0] - 1).price) < interval
      && IsPartition(d, s, interval, ends[0], ends[1..])
  }

  lemma {:induction false} GreedyIsPartition(d: Direction, s: seq<Level>, interval: real, j: nat)
    requires j <= |s| && interval > 0.0
    ensures IsPartition(d, s, interval, j, Ends(d, s, interval, j))
    ensures |Ends(d, s, interval, j)| == |Sums(d, s, interval, j)|
    decreases |s| - j
  {
    if j < |s| {
      var e := End(d, s, interval, At(s, j).price, j);
      GreedyIsPartition(d, s, interval, e);
      assert ([e] + Ends(d, s, interval, e))[1..] == Ends(d, s, interval, e);
    }
  }

  /** Starting no earlier than another partition, the greedy one never needs more groups. */
  lemma {:induction false} GreedyStaysAhead(d: Direction, s: seq<Level>, interval: real, i: nat, j: nat, ends: seq<nat>)
    requires Sorted(d, s) && interval > 0.0 && j <= i <= |s|
    requires IsPartition(d, s, interval, j, ends)
    ensures |Sums(d, s, interval, i)| <= |ends|
    decreases |ends|
  {
    if i < |s| && ends != [] {
      var e := End(d, s, interval, At(s, i).price, i);
      // Had the greedy group stopped inside the other's first group, it could have gone on.
      assert forall a, b :: 0 <= a < b < |s| ==> Worse(d, At(s, b).price, At(s, a).price);
      assert ends[0] <= e;
      GreedyStaysAhead(d, s, interval, e, ends[0], ends[1..]);
    }
  }

  /** No partition into groups narrower than the interval has fewer groups than the greedy one. */
  lemma GreedyIsOptimal(d: Direction, s: seq<Level>, interval: real, ends: seq<nat>)
    requires Sorted(d, s) && interval > 0.0 && IsPartition(d, s, interval, 0, ends)
    ensures |Sums(d, s, interval, 0)| <= |ends|
  {
    GreedyStaysAhead(d, s, interval, 0, 0, ends);
  }

  // ----- Sums and anchors -----

  function Total(xs: seq<real>): real
  {
    if xs == [] then 0.0 else xs[0] + Total(xs[1..])
  }

  lemma {:induction false} VolumeSplits(s: seq<Level>, j: nat, m: nat, e: nat)
    requires j <= m <= e <= |s|
    ensures Volume(s, j, e) == Volume(s, j, m) + Volume(s, m, e)
    decreases m - j
  {
    if j < m {
      VolumeSplits(s, j + 1, m, e);
    }
  }

  /** The group volumes add up to the volume of the side. */
  lemma {:induction false} SumsAddUp(d: Direction, s: seq<Level>, interval: real, j: nat)
    requires j <= |s| && interval > 0.0
    ensures Total(Sums(d, s, interval, j)) == Volume(s, j, |s|)
    decreases |s| - j
  {
    if j < |s| {
      var e := End(d, s, interval, At(s, j).price, j);
      SumsAddUp(d, s, interval, e);
      VolumeSplits(s, j, e, |s|);
      assert ([Volume(s, j, e)] + Sums(d, s, interval, e))[1..] == Sums(d, s, interval, e);
    }
  }

  /** The volumes of the levels in the order of the list. */
  function ListVolume(s: seq<Level>): real
  {
    if s == [] then 0.0 else s[0].volume + ListVolume(s[1..])
  }

  lemma {:induction false} ListVolumeLast(s: seq<Level>)
    requires s != []
    ensures ListVolume(s) == ListVolume(s[..|s| - 1]) + s[|s| - 1].volume
  {
    if |s| > 1 {
      ListVolumeLast(s[1..]);
      assert s[1..][..|s| - 2] == s[..|s| - 1][1..];
    } else {
      assert s[1..] == [] && s[..0] == [];
    }
  }

  /** From the best level on, positions count back from the end of the list. */
  lemma {:induction false} VolumeIsSlice(s: seq<Level>, j: nat, e: nat)
    requires j <= e <= |s|
    ensures Volume(s, j, e) == ListVolume(s[|s| - e..|s| - j])
    decreases e - j
  {
    if j < e {
      var slice := s[|s| - e..|s| - j];
      VolumeIsSlice(s, j + 1, e);
      ListVolumeLast(slice);
      assert slice[..|slice| - 1] == s[|s| - e..|s| - (j + 1)];
    } else {
      assert s[|s| - e..|s| - j] == [];
    }
  }

  lemma {:induction false} SumAt(d: Direction, s: seq<Level>, interval: real, j: nat, k: nat)
    requires j <= |s| && interval > 0.0 && k < |Ends(d, s, interval, j)|
    ensures var ends, sums := Ends(d, s, interval, j), Sums(d, s, interval, j);
            var start := if k == 0 then j else ends[k - 1];
            k < |sums| && start < ends[k] <= |s| && sums[k] == Volume(s, start, ends[k])
    decreases k
  {
    var e := End(d, s, interval, At(s, j).price, j);
    ProgressIff(d, s, interval, j);
    if k > 0 {
      SumAt(d, s, interval, e, k - 1);
    }
  }

  /** Each sum is the volume of its own group: of the levels from where the group starts to its end. */
  lemma SumsAreVolumes(d: Direction, s: seq<Level>, interval: real, k: nat)
    requires interval > 0.0 && k < |Ends(d, s, interval, 0)|
    ensures var ends, sums := Ends(d, s, interval, 0), Sums(d, s, interval, 0);
            var start := if k == 0 then 0 else ends[k - 1];
            && k < |sums| && start < ends[k] <= |s|
            && sums[k] == ListVolume(s[|s| - ends[k]..|s| - start])
  {
    var ends := Ends(d, s, interval, 0);
    SumAt(d, s, interval, 0, k);
    VolumeIsSlice(s, if k == 0 then 0 else ends[k - 1], ends[k]);
  }

  /** The positions the groups start at. */
  function Anchors(d: Direction, s: seq<Level>, interval: real): seq<nat>
    requires s != [] && interval > 0.0
  {
    var ends := Ends(d, s, interval, 0);
    [0] + ends[..|ends| - 1]
  }

  lemma {:induction false} EndsApart(d: Direction, s: seq<Level>, interval: real, j: nat, k: nat)
    requires j < |s| && interval > 0.0 && k + 1 < |Ends(d, s, interval, j)|
    ensures var ends := Ends(d, s, interval, j); var a := if k == 0 then j else ends[k - 1];
            a < ends[k] < |s| && interval <= Away(d, At(s, a).price, At(s, ends[k]).price)
    decreases k
  {
    var e := End(d, s, interval, At(s, j).price, j);
    assert Ends(d, s, interval, j) == [e] + Ends(d, s, interval, e);
    if k > 0 {
      EndsApart(d, s, interval, e, k - 1);
    }
  }

  /** The best prices of successive groups lie at least one interval apart. */
  lemma AnchorsApart(d: Direction, s: seq<Level>, interval: real, k: nat)
    requires s != [] && interval > 0.0 && k + 1 < |Anchors(d, s, interval)|
    ensures var a := Anchors(d, s, interval);
            a[k] < a[k + 1] < |s| && interval <= Away(d, At(s, a[k]).price, At(s, a[k + 1]).price)
  {
    EndsApart(d, s, interval, 0, k);
  }

  /** A group gets anywhere only for a positive interval: for any other, the scan that looks for
      its end stops where it started, and the loop around it would never finish. */
  lemma ProgressIff(d: Direction, s: seq<Level>, interval: real, j: nat)
    requires j < |s|
    ensures End(d, s, interval, At(s, j).price, j) > j <==> interval > 0.0
  {
  }
}
