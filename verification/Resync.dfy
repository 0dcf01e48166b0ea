/** Keeping a local book in step with a server that numbers its changes: buffer events, take a
    snapshot, replay, follow live, detect a gap, start again. */
module Resync {
  import opened Wrappers
  import opened Levels

  /** The last write per price of the updates `first` to `final`. */
  datatype Event = Event(first: nat, final: nat, bids: seq<RawLevel>, asks: seq<RawLevel>)

  datatype Snapshot = Snapshot(lastUpdateId: nat, bids: seq<RawLevel>, asks: seq<RawLevel>)

  /** The local book, with what the proof remembers of it: `high` is the highest update id put
      into the book, the snapshot's included, and `base` the snapshot it was built on. */
  datatype View = View(bids: Side, asks: Side, previous: nat, high: nat, base: Snapshot)

  /** `notified` lists the book as it was at each call of the listener. */
  datatype Stream = Stream(view: View, pending: bool, buffer: seq<Event>, notified: seq<View>)

  // ----- The protocol -----

  function Cleared(v: View): View
  {
    v.(bids := EMPTY_SIDE, asks := EMPTY_SIDE)
  }

  function TakeSnapshot(depth: nat, v: View, s: Snapshot): View
  {
    View(ApplyAll(Bid, depth, v.bids, s.bids), ApplyAll(Ask, depth, v.asks, s.asks), s.lastUpdateId, s.lastUpdateId, s)
  }

  function ApplyEvent(depth: nat, v: View, e: Event): View
  {
    View(ApplyAll(Bid, depth, v.bids, e.bids), ApplyAll(Ask, depth, v.asks, e.asks), e.final, Max(v.high, e.final), v.base)
  }

  predicate Covers(e: Event, id: nat)
  {
    e.first <= id <= e.final
  }

  /** The index of the first event that covers `id`; the length when there is none. */
  function Search(events: seq<Event>, id: nat): (i: nat)
    ensures i <= |events|
    ensures i < |events| ==> Covers(events[i], id)
    ensures forall j :: 0 <= j < i ==> !Covers(events[j], id)
  {
    if events == [] || Covers(events[0], id) then 0 else 1 + Search(events[1..], id)
  }

  /** The book after replaying `events` onto `v`, and the books shown on the way. */
  function Replay(depth: nat, v: View, events: seq<Event>, last: nat): (View, seq<View>)
  {
    if events == [] then (v, [])
    else
      var (w, shown) := Replay(depth, v, events[..|events| - 1], last);
      var e := events[|events| - 1];
      if e.final <= last then (w, shown)
      else var w' := ApplyEvent(depth, w, e); (w', shown + [w'])
  }

  function Install(depth: nat, st: Stream, s: Snapshot): Stream
  {
    var v := TakeSnapshot(depth, st.view, s);
    var (w, shown) := Replay(depth, v, st.buffer[Search(st.buffer, s.lastUpdateId + 1)..], s.lastUpdateId);
    Stream(w, false, [], st.notified + [v] + shown)
  }

  function Follow(depth: nat, st: Stream, msg: Event): Stream
  {
    if st.view.previous + 1 < msg.first then st.(view := Cleared(st.view), pending := true)
    else
      var v := ApplyEvent(depth, st.view, msg);
      st.(view := v, notified := st.notified + [v])
  }

  /** One message; `ready` is the snapshot when the pending request has been answered. */
  function OnMessage(depth: nat, st: Stream, msg: Event, ready: Option<Snapshot>): Stream
  {
    if !st.pending then Follow(depth, st, msg)
    else if ready.None? then st.(buffer := st.buffer + [msg])
    else Follow(depth, Install(depth, st, ready.value), msg)
  }

  // ----- The server -----

  type Key = (Direction, real)

  /** The writes of each update id; volume zero removes a level. Id 0 is the initial book. */
  type Log = nat -> map<Key, real>

  ghost function ServerAt(log: Log, id: nat, k: Key): real
  {
    if k in log(id) then log(id)[k] else if id == 0 then 0.0 else ServerAt(log, id - 1, k)
  }

  ghost predicate Touched(log: Log, lo: nat, hi: nat, k: Key)
  {
    exists id: nat :: lo <= id <= hi && k in log(id)
  }

  ghost predicate Mentions(rs: seq<RawLevel>, p: real)
  {
    exists i :: 0 <= i < |rs| && rs[i].price == p
  }

  function Writes(e: Event, d: Direction): seq<RawLevel>
  {
    if d == Bid then e.bids else e.asks
  }

  ghost predicate FaithfulEvent(log: Log, e: Event)
  {
    && e.first <= e.final
    && forall k: Key ::
         && (Touched(log, e.first, e.final, k) <==> Mentions(Writes(e, k.0), k.1))
         && (Mentions(Writes(e, k.0), k.1) ==> LastWrite(Writes(e, k.0), k.1, 0.0) == ServerAt(log, e.final, k))
  }

  function Contents(s: Snapshot, d: Direction): seq<RawLevel>
  {
    if d == Bid then s.bids else s.asks
  }

  /** What the snapshot lists is the server's book at its id; it need not list everything. */
  ghost predicate FaithfulSnapshot(log: Log, s: Snapshot)
  {
    forall k: Key :: Mentions(Contents(s, k.0), k.1)
      ==> LastWrite(Contents(s, k.0), k.1, 0.0) == ServerAt(log, s.lastUpdateId, k)
  }

  ghost predicate Omitted(log: Log, s: Snapshot, k: Key)
  {
    ServerAt(log, s.lastUpdateId, k) != 0.0 && !Mentions(Contents(s, k.0), k.1)
  }

  // ----- The claim about one book -----

  function SideOf(v: View, d: Direction): Side
  {
    if d == Bid then v.bids else v.asks
  }

  /** Better than every price the snapshot omitted or the depth limit evicted. */
  ghost predicate Visible(log: Log, v: View, k: Key)
  {
    && Clear(k.0, k.1, SideOf(v, k.0).lost)
    && forall p :: Omitted(log, v.base, (k.0, p)) ==> Worse(k.0, p, k.1)
  }

  ghost predicate WellFormed(depth: nat, v: View)
  {
    forall d :: Sorted(d, SideOf(v, d).levels) && |SideOf(v, d).levels| <= depth
  }

  /** Every visible price untouched after `previous` holds the server's value at `high`. */
  ghost predicate UpToDate(log: Log, v: View)
  {
    && v.previous <= v.high
    && forall k: Key :: Visible(log, v, k) && !Touched(log, v.previous + 1, v.high, k)
         ==> Quantity(SideOf(v, k.0).levels, k.1) == ServerAt(log, v.high, k)
  }

  /** The local book is the server's at id `high`, at every visible price. */
  ghost predicate Agrees(log: Log, v: View)
  {
    forall k: Key :: Visible(log, v, k) ==> Quantity(SideOf(v, k.0).levels, k.1) == ServerAt(log, v.high, k)
  }

  lemma {:induction false} Untouched(log: Log, lo: nat, hi: nat, k: Key)
    requires lo <= hi && !Touched(log, lo + 1, hi, k)
    ensures ServerAt(log, lo, k) == ServerAt(log, hi, k)
    decreases hi
  {
    if lo < hi {
      Untouched(log, lo, hi - 1, k);
    }
  }

  lemma {:induction false} LastWriteMentions(rs: seq<RawLevel>, p: real, v: real)
    ensures Mentions(rs, p) ==> LastWrite(rs, p, v) == LastWrite(rs, p, 0.0)
    ensures !Mentions(rs, p) ==> LastWrite(rs, p, v) == v
  {
    if rs != [] {
      var front := rs[..|rs| - 1];
      LastWriteMentions(front, p, v);
      assert Mentions(front, p) ==> Mentions(rs, p);
      assert rs[|rs| - 1].price != p && Mentions(rs, p) ==> Mentions(front, p) by {
        assert forall i :: 0 <= i < |rs| - 1 ==> front[i] == rs[i];
      }
    }
  }

  lemma SnapshotUpToDate(log: Log, depth: nat, v: View, s: Snapshot)
    requires v.bids == v.asks == EMPTY_SIDE && FaithfulSnapshot(log, s)
    ensures WellFormed(depth, TakeSnapshot(depth, v, s)) && UpToDate(log, TakeSnapshot(depth, v, s))
  {
    var w := TakeSnapshot(depth, v, s);
    forall d
      ensures Sorted(d, SideOf(w, d).levels) && |SideOf(w, d).levels| <= depth
    {
      ApplyAllSorted(d, depth, EMPTY_SIDE, Contents(s, d));
    }
    forall k: Key | Visible(log, w, k)
      ensures Quantity(SideOf(w, k.0).levels, k.1) == ServerAt(log, w.high, k)
    {
      ApplyAllWrites(k.0, depth, EMPTY_SIDE, Contents(s, k.0), k.1);
      LastWriteMentions(Contents(s, k.0), k.1, 0.0);
      assert !Omitted(log, s, (k.0, k.1));
    }
  }

  /** The gap test alone keeps the claim: the event may be stale or overlap what was applied. */
  lemma {:induction false} EventUpToDate(log: Log, depth: nat, v: View, e: Event)
    requires WellFormed(depth, v) && UpToDate(log, v)
    requires FaithfulEvent(log, e) && e.first <= v.previous + 1
    ensures WellFormed(depth, ApplyEvent(depth, v, e)) && UpToDate(log, ApplyEvent(depth, v, e))
  {
    var w := ApplyEvent(depth, v, e);
    forall d
      ensures Sorted(d, SideOf(w, d).levels) && |SideOf(w, d).levels| <= depth
    {
      ApplyAllSorted(d, depth, SideOf(v, d), Writes(e, d));
    }
    forall k: Key | Visible(log, w, k) && !Touched(log, w.previous + 1, w.high, k)
      ensures Quantity(SideOf(w, k.0).levels, k.1) == ServerAt(log, w.high, k)
    {
      EventUpToDateAt(log, depth, v, e, k);
    }
  }

  lemma {:induction false} EventUpToDateAt(log: Log, depth: nat, v: View, e: Event, k: Key)
    requires WellFormed(depth, v) && UpToDate(log, v)
    requires FaithfulEvent(log, e) && e.first <= v.previous + 1
    requires var w := ApplyEvent(depth, v, e); Visible(log, w, k) && !Touched(log, w.previous + 1, w.high, k)
    ensures var w := ApplyEvent(depth, v, e); Quantity(SideOf(w, k.0).levels, k.1) == ServerAt(log, w.high, k)
  {
    var w := ApplyEvent(depth, v, e);
    var before := Quantity(SideOf(v, k.0).levels, k.1);
    ApplyAllWrites(k.0, depth, SideOf(v, k.0), Writes(e, k.0), k.1);
    LastWriteMentions(Writes(e, k.0), k.1, before);
    if Mentions(Writes(e, k.0), k.1) {
      Untouched(log, e.final, w.high, k);
    } else {
      assert !Touched(log, e.first, e.final, k);
      assert !Touched(log, v.previous + 1, v.high, k);
      assert !Touched(log, v.high + 1, w.high, k);
      Untouched(log, v.high, w.high, k);
      assert Visible(log, v, k);
    }
  }

  // ----- The claim about whole runs -----

  ghost predicate GapFree(events: seq<Event>)
  {
    forall i, j :: 0 <= i < j < |events| && j == i + 1 ==> events[j].first <= events[i].final + 1
  }

  ghost predicate Sound(log: Log, depth: nat, views: seq<View>)
  {
    forall v :: v in views ==> WellFormed(depth, v) && UpToDate(log, v)
  }

  lemma {:induction false} ReplayUpToDate(log: Log, depth: nat, v: View, events: seq<Event>, last: nat)
    requires WellFormed(depth, v) && UpToDate(log, v) && v.previous == last
    requires GapFree(events) && forall e :: e in events ==> FaithfulEvent(log, e)
    requires events != [] ==> Covers(events[0], last + 1)
    ensures var (w, shown) := Replay(depth, v, events, last);
            && WellFormed(depth, w) && UpToDate(log, w) && Sound(log, depth, shown)
            && last <= w.previous
            && (events != [] ==> events[|events| - 1].final <= w.previous)
  {
    if events != [] {
      var front, e := events[..|events| - 1], events[|events| - 1];
      assert forall i :: 0 <= i < |front| ==> front[i] == events[i];
      ReplayUpToDate(log, depth, v, front, last);
      var (w, shown) := Replay(depth, v, front, last);
      if e.final > last {
        assert front != [] ==> e.first <= front[|front| - 1].final + 1;
        EventUpToDate(log, depth, w, e);
      }
    }
  }

  ghost predicate StreamSound(log: Log, depth: nat, st: Stream)
  {
    && Sound(log, depth, st.notified)
    && (if st.pending
        then
          && st.view.bids == st.view.asks == EMPTY_SIDE
          && GapFree(st.buffer) && forall e :: e in st.buffer ==> FaithfulEvent(log, e)
        else st.buffer == [] && WellFormed(depth, st.view) && UpToDate(log, st.view))
  }

  /** One message with, if a snapshot was awaited, the answer found waiting for it. */
  datatype Input = Input(msg: Event, ready: Option<Snapshot>)

  /** What the exchange promises about one message: it speaks the truth about its log, and a
      message that will be buffered leaves no gap to the one buffered before it. Messages
      followed live may come with any gap, overlap or order. */
  ghost predicate Legal(log: Log, st: Stream, input: Input)
  {
    && FaithfulEvent(log, input.msg)
    && (st.pending && input.ready.Some? ==> FaithfulSnapshot(log, input.ready.value))
    && (st.pending && input.ready.None? ==> GapFree(st.buffer + [input.msg]))
  }

  lemma StepSound(log: Log, depth: nat, st: Stream, input: Input)
    requires StreamSound(log, depth, st) && Legal(log, st, input)
    ensures StreamSound(log, depth, OnMessage(depth, st, input.msg, input.ready))
  {
    if !st.pending {
      FollowSound(log, depth, st, input.msg);
    } else if input.ready.Some? {
      InstallSound(log, depth, st, input.ready.value);
      FollowSound(log, depth, Install(depth, st, input.ready.value), input.msg);
    }
  }

  lemma InstallSound(log: Log, depth: nat, st: Stream, s: Snapshot)
    requires StreamSound(log, depth, st) && st.pending && FaithfulSnapshot(log, s)
    ensures StreamSound(log, depth, Install(depth, st, s))
  {
    var i := Search(st.buffer, s.lastUpdateId + 1);
    SnapshotUpToDate(log, depth, st.view, s);
    SuffixGapFree(log, st.buffer, i);
    ReplayUpToDate(log, depth, TakeSnapshot(depth, st.view, s), st.buffer[i..], s.lastUpdateId);
  }

  lemma SuffixGapFree(log: Log, buffer: seq<Event>, i: nat)
    requires i <= |buffer| && GapFree(buffer) && forall e :: e in buffer ==> FaithfulEvent(log, e)
    ensures GapFree(buffer[i..]) && forall e :: e in buffer[i..] ==> FaithfulEvent(log, e)
  {
  }

  lemma FollowSound(log: Log, depth: nat, st: Stream, msg: Event)
    requires StreamSound(log, depth, st) && !st.pending && FaithfulEvent(log, msg)
    ensures StreamSound(log, depth, Follow(depth, st, msg))
  {
    if msg.first <= st.view.previous + 1 {
      EventUpToDate(log, depth, st.view, msg);
    }
  }

  /** The connection has been opened and the first snapshot requested. */
  const OPENED := Stream(View(EMPTY_SIDE, EMPTY_SIDE, 0, 0, Snapshot(0, [], [])), true, [], [])

  function Run(depth: nat, inputs: seq<Input>): Stream
  {
    if inputs == [] then OPENED
    else
      var input := inputs[|inputs| - 1];
      OnMessage(depth, Run(depth, inputs[..|inputs| - 1]), input.msg, input.ready)
  }

  ghost predicate LegalRun(log: Log, depth: nat, inputs: seq<Input>)
  {
    inputs != [] ==>
      && LegalRun(log, depth, inputs[..|inputs| - 1])
      && Legal(log, Run(depth, inputs[..|inputs| - 1]), inputs[|inputs| - 1])
  }

  lemma {:induction false} RunSound(log: Log, depth: nat, inputs: seq<Input>)
    requires LegalRun(log, depth, inputs)
    ensures StreamSound(log, depth, Run(depth, inputs))
  {
    if inputs != [] {
      RunSound(log, depth, inputs[..|inputs| - 1]);
      StepSound(log, depth, Run(depth, inputs[..|inputs| - 1]), inputs[|inputs| - 1]);
    }
  }

  /** Over every run, each book shown to a listener while the previous update id is the highest
      one applied is the server's book at that id, at every price better than the best one the
      snapshot omitted or the depth limit evicted. The same holds of the book between messages. */
  lemma {:induction false} ResyncCorrect(log: Log, depth: nat, inputs: seq<Input>)
    requires LegalRun(log, depth, inputs)
    ensures var st := Run(depth, inputs);
            && (forall v :: v in st.notified && v.previous == v.high ==> Agrees(log, v))
            && (!st.pending && st.view.previous == st.view.high ==> Agrees(log, st.view))
            && (st.pending ==> st.view.bids.levels == st.view.asks.levels == [])
  {
    RunSound(log, depth, inputs);
  }

  /** If its best level is visible, a book in step shows the server's own best price: it has the
      server's volume there, and the server has nothing better. */
  lemma BestIsServersBest(log: Log, depth: nat, v: View, d: Direction)
    requires WellFormed(depth, v) && Agrees(log, v)
    requires SideOf(v, d).levels != [] && Visible(log, v, (d, SideOf(v, d).levels[|SideOf(v, d).levels| - 1].price))
    ensures var s := SideOf(v, d).levels; var best := s[|s| - 1];
            && ServerAt(log, v.high, (d, best.price)) == best.volume
            && forall p :: Worse(d, best.price, p) ==> ServerAt(log, v.high, (d, p)) == 0.0
  {
  }

  // ----- No hole after a snapshot -----

  /** Events in order and without overlap; ids may be missing between them. */
  ghost predicate Ordered(events: seq<Event>)
  {
    && (forall i :: 0 <= i < |events| ==> events[i].first <= events[i].final)
    && (forall i, j :: 0 <= i < j < |events| ==> events[i].final < events[j].first)
  }

  /** Events in order, each starting right after the one before. */
  ghost predicate Contiguous(events: seq<Event>)
  {
    Ordered(events) && GapFree(events)
  }

  /** The search finds the one event that continues the snapshot, or else the whole buffer lies
      before the snapshot or the whole buffer lies after it. */
  lemma SearchCases(buffer: seq<Event>, id: nat)
    requires Contiguous(buffer)
    ensures var i := Search(buffer, id);
            if i < |buffer| then forall j :: 0 <= j < |buffer| && Covers(buffer[j], id) ==> j == i
            else (forall e :: e in buffer ==> e.final < id) || (forall e :: e in buffer ==> id < e.first)
  {
    var i := Search(buffer, id);
    if i == |buffer| {
      SearchMiss(buffer, id);
    }
  }

  lemma {:induction false} SearchMiss(buffer: seq<Event>, id: nat)
    requires Contiguous(buffer) && forall e :: e in buffer ==> !Covers(e, id)
    ensures (forall e :: e in buffer ==> e.final < id) || (forall e :: e in buffer ==> id < e.first)
  {
    if |buffer| > 1 {
      var front := buffer[..|buffer| - 1];
      assert buffer == front + [buffer[|buffer| - 1]];
      SearchMiss(front, id);
      assert front[|front| - 1] in buffer && buffer[|buffer| - 1] in buffer;
      assert buffer[|buffer| - 1].first == front[|front| - 1].final + 1;
    }
  }

  lemma {:induction false} ReplayReaches(depth: nat, v: View, events: seq<Event>, last: nat)
    requires events != [] && Ordered(events) && Covers(events[0], last + 1) && v.high == last
    ensures var w := Replay(depth, v, events, last).0; w.previous == w.high == events[|events| - 1].final
  {
    var front, e := events[..|events| - 1], events[|events| - 1];
    if front != [] {
      ReplayReaches(depth, v, front, last);
    } else {
      assert Replay(depth, v, front, last).0 == v;
    }
  }

  lemma SuffixOrdered(events: seq<Event>, i: nat)
    requires Ordered(events) && i <= |events|
    ensures Ordered(events[i..])
  {
  }

  /** The ids the book holds after the events from the `i`-th on have been replayed. */
  lemma SuffixReaches(depth: nat, v: View, buffer: seq<Event>, i: nat, last: nat)
    requires Ordered(buffer) && i < |buffer| && Covers(buffer[i], last + 1) && v.high == last
    ensures var w := Replay(depth, v, buffer[i..], last).0; w.previous == w.high == buffer[|buffer| - 1].final
  {
    SuffixOrdered(buffer, i);
    ReplayReaches(depth, v, buffer[i..], last);
  }

  lemma FoundReaches(depth: nat, v: View, buffer: seq<Event>, last: nat)
    requires Ordered(buffer) && v.previous == v.high == last
    ensures var i, w := Search(buffer, last + 1), Replay(depth, v, buffer[Search(buffer, last + 1)..], last).0;
            w.previous == w.high == if i < |buffer| then buffer[|buffer| - 1].final else last
  {
    var i := Search(buffer, last + 1);
    if i < |buffer| {
      SuffixReaches(depth, v, buffer, i, last);
    } else {
      assert buffer[i..] == [];
    }
  }

  /** The ids the book holds after a snapshot has been installed over an ordered buffer. */
  lemma InstallReaches(depth: nat, st: Stream, s: Snapshot)
    requires Ordered(st.buffer)
    ensures var i, v := Search(st.buffer, s.lastUpdateId + 1), Install(depth, st, s).view;
            v.previous == v.high == if i < |st.buffer| then st.buffer[|st.buffer| - 1].final else s.lastUpdateId
  {
    FoundReaches(depth, TakeSnapshot(depth, st.view, s), st.buffer, s.lastUpdateId);
  }

  /** Where the snapshot id lies relative to the oldest event and to the current message. */
  lemma SnapshotPosition(buffer: seq<Event>, msg: Event, last: nat)
    requires Contiguous(buffer + [msg])
    ensures var i, n, oldest := Search(buffer, last + 1), |buffer|, (buffer + [msg])[0];
            if i < n then oldest.first <= last + 1 && buffer[n - 1].final + 1 == msg.first && last <= msg.final
            else last + 1 < oldest.first <==> last + 1 < msg.first
  {
    var all, n, i := buffer + [msg], |buffer|, Search(buffer, last + 1);
    assert forall j :: 0 <= j < n ==> all[j] == buffer[j];
    assert all[n] == msg;
    SearchCases(buffer, last + 1);
    if n > 0 {
      assert buffer[0] in buffer && buffer[n - 1] in buffer;
      assert all[n].first == all[n - 1].final + 1;
    }
  }

  /** When the snapshot arrives with a contiguous stream, it is thrown away and a new one is
      requested exactly when it is older than the oldest event at hand; otherwise the book ends
      in step, unless the snapshot is newer than even the current message. */
  lemma NoHole(depth: nat, st: Stream, msg: Event, s: Snapshot)
    requires st.pending && Contiguous(st.buffer + [msg])
    ensures var st' := OnMessage(depth, st, msg, Some(s));
            && (st'.pending <==> s.lastUpdateId + 1 < (st.buffer + [msg])[0].first)
            && (st'.pending ==> st'.view.bids == st'.view.asks == EMPTY_SIDE && st'.buffer == [])
            && (!st'.pending ==> st'.view.previous == msg.final
                                 && (st'.view.previous == st'.view.high <==> s.lastUpdateId <= msg.final))
  {
    assert Contiguous(st.buffer) && msg.first <= msg.final by {
      assert forall j :: 0 <= j < |st.buffer| ==> (st.buffer + [msg])[j] == st.buffer[j];
      assert (st.buffer + [msg])[|st.buffer|] == msg;
    }
    InstallReaches(depth, st, s);
    SnapshotPosition(st.buffer, msg, s.lastUpdateId);
    var installed := Install(depth, st, s);
    assert OnMessage(depth, st, msg, Some(s)) == Follow(depth, installed, msg);
  }

  // ----- The test a caller can make -----

  function Messages(inputs: seq<Input>): (ms: seq<Event>)
    ensures |ms| == |inputs|
  {
    if inputs == [] then [] else Messages(inputs[..|inputs| - 1]) + [inputs[|inputs| - 1].msg]
  }

  /** The highest id in the book is that of its last event or of its snapshot. */
  predicate TwoIds(v: View)
  {
    v.high == Max(v.base.lastUpdateId, v.previous)
  }

  /** The stream after the contiguous messages `ms`: what it buffers are the last of them. */
  ghost predicate Tracks(st: Stream, ms: seq<Event>)
  {
    && (forall v :: v in st.notified ==> TwoIds(v))
    && (if st.pending then |st.buffer| <= |ms| && st.buffer == ms[|ms| - |st.buffer|..]
        else ms != [] && TwoIds(st.view) && st.view.previous == ms[|ms| - 1].final)
  }

  lemma {:induction false} ReplayBase(depth: nat, v: View, events: seq<Event>, last: nat)
    ensures Replay(depth, v, events, last).0.base == v.base
  {
    if events != [] {
      ReplayBase(depth, v, events[..|events| - 1], last);
    }
  }

  lemma InstallBase(depth: nat, st: Stream, s: Snapshot)
    ensures Install(depth, st, s).view.base == s
  {
    ReplayBase(depth, TakeSnapshot(depth, st.view, s), st.buffer[Search(st.buffer, s.lastUpdateId + 1)..], s.lastUpdateId);
  }

  lemma {:induction false} ReplayTwoIds(depth: nat, v: View, events: seq<Event>, last: nat)
    requires Ordered(events) && (events != [] ==> Covers(events[0], last + 1))
    requires v.previous == v.high == v.base.lastUpdateId == last
    ensures forall w :: w in Replay(depth, v, events, last).1 ==> TwoIds(w)
    ensures TwoIds(Replay(depth, v, events, last).0)
  {
    if events != [] {
      var front := events[..|events| - 1];
      ReplayTwoIds(depth, v, front, last);
      ReplayBase(depth, v, front, last);
      if front != [] {
        ReplayReaches(depth, v, front, last);
      }
    }
  }

  lemma AllTwoIds(earlier: seq<View>, v: View, more: seq<View>)
    requires TwoIds(v) && (forall w :: w in earlier ==> TwoIds(w)) && forall w :: w in more ==> TwoIds(w)
    ensures forall w :: w in earlier + [v] + more ==> TwoIds(w)
  {
  }

  lemma InstallTwoIds(depth: nat, st: Stream, s: Snapshot)
    requires Ordered(st.buffer) && forall v :: v in st.notified ==> TwoIds(v)
    ensures var st' := Install(depth, st, s);
            TwoIds(st'.view) && forall v :: v in st'.notified ==> TwoIds(v)
  {
    var v, events := TakeSnapshot(depth, st.view, s), st.buffer[Search(st.buffer, s.lastUpdateId + 1)..];
    SuffixOrdered(st.buffer, Search(st.buffer, s.lastUpdateId + 1));
    ReplayTwoIds(depth, v, events, s.lastUpdateId);
    AllTwoIds(st.notified, v, Replay(depth, v, events, s.lastUpdateId).1);
  }

  /** The message that comes with the snapshot, after the buffer has been replayed. */
  lemma FollowTracks(depth: nat, st: Stream, buffer: seq<Event>, ms: seq<Event>, msg: Event)
    requires !st.pending && st.buffer == [] && forall v :: v in st.notified ==> TwoIds(v)
    requires Ordered(buffer + [msg])
    requires st.view.previous == st.view.high
    requires st.view.high == st.view.base.lastUpdateId || (buffer != [] && st.view.high == buffer[|buffer| - 1].final)
    requires TwoIds(st.view)
    ensures Tracks(Follow(depth, st, msg), ms + [msg])
  {
    if buffer != [] {
      assert (buffer + [msg])[|buffer| - 1] == buffer[|buffer| - 1] && (buffer + [msg])[|buffer|] == msg;
      assert buffer[|buffer| - 1].final < msg.first <= msg.final;
    }
  }

  lemma StepTracks(depth: nat, st: Stream, ms: seq<Event>, input: Input)
    requires Tracks(st, ms) && Contiguous(ms + [input.msg])
    ensures Tracks(OnMessage(depth, st, input.msg, input.ready), ms + [input.msg])
  {
    var msg, all := input.msg, ms + [input.msg];
    if st.pending {
      BufferTracks(st.buffer, ms, msg);
      if input.ready.Some? {
        InstalledTracks(depth, st, ms, msg, input.ready.value);
      }
    } else {
      assert all[|ms|] == msg && all[|ms| - 1] == ms[|ms| - 1];
    }
  }

  lemma BufferTracks(buffer: seq<Event>, ms: seq<Event>, msg: Event)
    requires |buffer| <= |ms| && buffer == ms[|ms| - |buffer|..] && Ordered(ms + [msg])
    ensures buffer + [msg] == (ms + [msg])[|ms| - |buffer|..]
    ensures Ordered(buffer + [msg]) && Ordered(buffer)
  {
    var all, k := ms + [msg], |ms| - |buffer|;
    assert all[k..] == buffer + [msg];
    SuffixOrdered(all, k);
    assert forall j :: 0 <= j < |buffer| ==> buffer[j] == (buffer + [msg])[j];
  }

  lemma InstalledTracks(depth: nat, st: Stream, ms: seq<Event>, msg: Event, s: Snapshot)
    requires Ordered(st.buffer + [msg]) && Ordered(st.buffer) && forall v :: v in st.notified ==> TwoIds(v)
    ensures Tracks(Follow(depth, Install(depth, st, s), msg), ms + [msg])
  {
    InstallTwoIds(depth, st, s);
    InstallReaches(depth, st, s);
    InstallBase(depth, st, s);
    FollowTracks(depth, Install(depth, st, s), st.buffer, ms, msg);
  }

  lemma {:induction false} RunTracks(depth: nat, inputs: seq<Input>)
    requires Contiguous(Messages(inputs))
    ensures Tracks(Run(depth, inputs), Messages(inputs))
  {
    if inputs != [] {
      var front := inputs[..|inputs| - 1];
      var ms := Messages(front);
      assert forall i :: 0 <= i < |ms| ==> Messages(inputs)[i] == ms[i];
      RunTracks(depth, front);
      StepTracks(depth, Run(depth, front), ms, inputs[|inputs| - 1]);
    }
  }

  /** The highest id is reached exactly if the snapshot's is, and then the book is the server's. */
  ghost predicate CaughtUp(log: Log, v: View)
  {
    && (v.previous == v.high <==> v.base.lastUpdateId <= v.previous)
    && (v.base.lastUpdateId <= v.previous ==> Agrees(log, v))
  }

  /** With contiguous messages a book is in step exactly if its previous update id has caught up
      with its snapshot's, which is known without the history: then it is the server's book. */
  lemma CaughtUpIff(log: Log, depth: nat, inputs: seq<Input>)
    requires LegalRun(log, depth, inputs) && Contiguous(Messages(inputs))
    ensures var st := Run(depth, inputs);
            && (forall v :: v in st.notified ==> CaughtUp(log, v))
            && (!st.pending ==> CaughtUp(log, st.view))
  {
    RunTracks(depth, inputs);
    RunSound(log, depth, inputs);
  }
}
