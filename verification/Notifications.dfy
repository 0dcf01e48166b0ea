/** Which books the stream shows to its listener, and when. */
module Notifications {
  import opened Wrappers
  import opened Levels
  import opened Resync

  // ----- One message -----

  /** The events that are news to a snapshot with the id `last`. */
  function Newer(events: seq<Event>, last: nat): seq<Event>
  {
    if events == [] then []
    else
      var earlier, e := Newer(events[..|events| - 1], last), events[|events| - 1];
      if last < e.final then earlier + [e] else earlier
  }

  /** At prices not lost to the depth limit, `w` shows the writes of `e` and otherwise what `v` does. */
  ghost predicate ShowsEvent(v: View, e: Event, w: View)
  {
    && w.previous == e.final
    && forall k: Key :: Clear(k.0, k.1, SideOf(w, k.0).lost)
         ==> Quantity(SideOf(w, k.0).levels, k.1)
             == LastWrite(Writes(e, k.0), k.1, Quantity(SideOf(v, k.0).levels, k.1))
  }

  /** The book that was current before the `i`-th of `shown`. */
  function Earlier(v: View, shown: seq<View>, i: nat): View
    requires i <= |shown|
  {
    if i == 0 then v else shown[i - 1]
  }

  /** One book per event, in order, each brought up to date from the one before. */
  ghost predicate ShowsEach(v: View, events: seq<Event>, shown: seq<View>)
  {
    && |shown| == |events|
    && forall i :: 0 <= i < |events| ==> ShowsEvent(Earlier(v, shown, i), events[i], shown[i])
  }

  /** The book that the snapshot lists, at prices not lost to the depth limit. */
  ghost predicate ShowsSnapshot(s: Snapshot, w: View)
  {
    && w.previous == s.lastUpdateId
    && forall k: Key :: Clear(k.0, k.1, SideOf(w, k.0).lost)
         ==> Quantity(SideOf(w, k.0).levels, k.1) == LastWrite(Contents(s, k.0), k.1, 0.0)
  }

  lemma EventShows(depth: nat, v: View, e: Event)
    requires WellFormed(depth, v)
    ensures ShowsEvent(v, e, ApplyEvent(depth, v, e)) && WellFormed(depth, ApplyEvent(depth, v, e))
  {
    var w := ApplyEvent(depth, v, e);
    forall k: Key | Clear(k.0, k.1, SideOf(w, k.0).lost)
      ensures Quantity(SideOf(w, k.0).levels, k.1) == LastWrite(Writes(e, k.0), k.1, Quantity(SideOf(v, k.0).levels, k.1))
    {
      ApplyAllWrites(k.0, depth, SideOf(v, k.0), Writes(e, k.0), k.1);
    }
    forall d
      ensures Sorted(d, SideOf(w, d).levels) && |SideOf(w, d).levels| <= depth
    {
      ApplyAllSorted(d, depth, SideOf(v, d), Writes(e, d));
    }
  }

  lemma SnapshotShows(depth: nat, v: View, s: Snapshot)
    requires v.bids == v.asks == EMPTY_SIDE
    ensures ShowsSnapshot(s, TakeSnapshot(depth, v, s)) && WellFormed(depth, TakeSnapshot(depth, v, s))
  {
    var w := TakeSnapshot(depth, v, s);
    forall k: Key | Clear(k.0, k.1, SideOf(w, k.0).lost)
      ensures Quantity(SideOf(w, k.0).levels, k.1) == LastWrite(Contents(s, k.0), k.1, 0.0)
    {
      ApplyAllWrites(k.0, depth, EMPTY_SIDE, Contents(s, k.0), k.1);
      NoQuantity([], k.1);
    }
    forall d
      ensures Sorted(d, SideOf(w, d).levels) && |SideOf(w, d).levels| <= depth
    {
      ApplyAllSorted(d, depth, EMPTY_SIDE, Contents(s, d));
    }
  }

  lemma EachNext(v: View, events: seq<Event>, shown: seq<View>, w: View, e: Event, w': View)
    requires ShowsEach(v, events, shown) && w == Earlier(v, shown, |shown|)
    requires ShowsEvent(w, e, w')
    ensures ShowsEach(v, events + [e], shown + [w'])
  {
    var all, more := events + [e], shown + [w'];
    forall i | 0 <= i < |all|
      ensures ShowsEvent(Earlier(v, more, i), all[i], more[i])
    {
      assert Earlier(v, more, i) == Earlier(v, shown, i);
    }
  }

  lemma {:induction false} ReplayShows(depth: nat, v: View, events: seq<Event>, last: nat)
    requires WellFormed(depth, v)
    ensures var (w, shown) := Replay(depth, v, events, last);
            && WellFormed(depth, w) && ShowsEach(v, Newer(events, last), shown)
            && w == Earlier(v, shown, |shown|)
  {
    if events != [] {
      var front, e := events[..|events| - 1], events[|events| - 1];
      ReplayShows(depth, v, front, last);
      if last < e.final {
        var (w, shown) := Replay(depth, v, front, last);
        EventShows(depth, w, e);
        EachNext(v, Newer(front, last), shown, w, e, ApplyEvent(depth, w, e));
      }
    }
  }

  /** Whether the stream is at rest, and with which book. */
  ghost predicate Settled(depth: nat, st: Stream)
  {
    if st.pending then st.view.bids == st.view.asks == EMPTY_SIDE
    else WellFormed(depth, st.view) && st.notified != [] && st.notified[|st.notified| - 1] == st.view
  }

  lemma FollowShows(depth: nat, st: Stream, msg: Event)
    requires !st.pending && WellFormed(depth, st.view)
    ensures var st' := Follow(depth, st, msg);
            && Settled(depth, st')
            && (if st.view.previous + 1 < msg.first then st'.pending && st'.notified == st.notified
                else !st'.pending && st'.notified == st.notified + [st'.view] && ShowsEvent(st.view, msg, st'.view))
  {
    if st.view.previous + 1 >= msg.first {
      EventShows(depth, st.view, msg);
    }
  }

  lemma ShownParts(earlier: seq<View>, v: View, shown: seq<View>)
    ensures var all, n := earlier + [v] + shown, |earlier|;
            && all[..n] == earlier && all[n] == v && all[n + 1..] == shown
            && all[|all| - 1] == Earlier(v, shown, |shown|)
  {
  }

  /** To the books shown `earlier`, the snapshot's and one for each of `events` were added. */
  ghost predicate Installed(depth: nat, earlier: seq<View>, s: Snapshot, events: seq<Event>, st: Stream)
  {
    var n := |earlier|;
    && Settled(depth, st) && !st.pending && n < |st.notified| && st.notified[..n] == earlier
    && ShowsSnapshot(s, st.notified[n])
    && ShowsEach(st.notified[n], events, st.notified[n + 1..])
  }

  lemma PartsInstalled(depth: nat, earlier: seq<View>, s: Snapshot, events: seq<Event>, v: View, w: View, shown: seq<View>)
    requires ShowsSnapshot(s, v) && ShowsEach(v, events, shown)
    requires WellFormed(depth, w) && w == Earlier(v, shown, |shown|)
    ensures Installed(depth, earlier, s, events, Stream(w, false, [], earlier + [v] + shown))
  {
    ShownParts(earlier, v, shown);
  }

  lemma ReplayInstalled(depth: nat, earlier: seq<View>, s: Snapshot, v: View, events: seq<Event>)
    requires ShowsSnapshot(s, v) && WellFormed(depth, v)
    ensures var (w, shown) := Replay(depth, v, events, s.lastUpdateId);
            Installed(depth, earlier, s, Newer(events, s.lastUpdateId), Stream(w, false, [], earlier + [v] + shown))
  {
    ReplayShows(depth, v, events, s.lastUpdateId);
    var (w, shown) := Replay(depth, v, events, s.lastUpdateId);
    PartsInstalled(depth, earlier, s, Newer(events, s.lastUpdateId), v, w, shown);
  }

  /** An installation shows the snapshot's book, then one for each buffered event from the one
      found on that is news to the snapshot. */
  lemma InstallShows(depth: nat, st: Stream, s: Snapshot)
    requires st.view.bids == st.view.asks == EMPTY_SIDE
    ensures Installed(depth, st.notified, s,
                      Newer(st.buffer[Search(st.buffer, s.lastUpdateId + 1)..], s.lastUpdateId), Install(depth, st, s))
  {
    SnapshotShows(depth, st.view, s);
    ReplayInstalled(depth, st.notified, s, TakeSnapshot(depth, st.view, s),
                    st.buffer[Search(st.buffer, s.lastUpdateId + 1)..]);
  }

  /** What one message adds to the books shown. Buffered, it adds none. With the snapshot at hand the
      snapshot's book is shown, then one book for each buffered event that is replayed. After that,
      as for a message followed live, a message that leaves a gap adds none, and any other exactly
      one: the book with its writes. */
  lemma MessageShows(depth: nat, st: Stream, msg: Event, ready: Option<Snapshot>)
    requires Settled(depth, st)
    ensures var st' := OnMessage(depth, st, msg, ready);
            && Settled(depth, st')
            && (st.pending && ready.None? ==> st'.notified == st.notified)
            && (!st.pending || ready.Some? ==>
                  var live := if st.pending then Install(depth, st, ready.value) else st;
                  && (st'.pending <==> live.view.previous + 1 < msg.first)
                  && (if st'.pending then st'.notified == live.notified
                      else st'.notified == live.notified + [st'.view] && ShowsEvent(live.view, msg, st'.view)))
  {
    if !st.pending {
      FollowShows(depth, st, msg);
    } else if ready.Some? {
      InstallShows(depth, st, ready.value);
      FollowShows(depth, Install(depth, st, ready.value), msg);
    }
  }

  // ----- Whole runs -----

  /** Over every run, whenever the stream follows live the last book shown is the current one. */
  lemma {:induction false} LastShownIsCurrent(depth: nat, inputs: seq<Input>)
    ensures var st := Run(depth, inputs);
            && Settled(depth, st)
            && (!st.pending ==> st.notified != [] && st.notified[|st.notified| - 1] == st.view)
  {
    if inputs != [] {
      var front, input := inputs[..|inputs| - 1], inputs[|inputs| - 1];
      LastShownIsCurrent(depth, front);
      MessageShows(depth, Run(depth, front), input.msg, input.ready);
    }
  }
}
