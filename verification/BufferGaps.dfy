/** What a gap in the buffer of the Binance stream does. The buffer is replayed onto the snapshot
    without a gap test, so a gap there goes unnoticed; live gaps do not. */
module BufferGaps {
  import opened Wrappers
  import opened Levels
  import opened Resync

  /** The messages are ones a server with this log would send. */
  ghost predicate Truthful(log: Log, s: Snapshot, events: seq<Event>)
  {
    FaithfulSnapshot(log, s) && forall e :: e in events ==> FaithfulEvent(log, e)
  }

  /** The part of the buffer that is replayed onto the snapshot. */
  function Replayed(st: Stream, s: Snapshot): seq<Event>
  {
    st.buffer[Search(st.buffer, s.lastUpdateId + 1)..]
  }

  /** Whatever the server's log is, if it explains the messages, the book is its book. */
  ghost predicate SurelyAgrees(s: Snapshot, events: seq<Event>, v: View)
  {
    forall log: Log :: Truthful(log, s, events) ==> Agrees(log, v)
  }

  // ----- Without a gap -----

  lemma GapFreeAgrees(log: Log, depth: nat, st: Stream, s: Snapshot)
    requires st.view.bids == st.view.asks == EMPTY_SIDE && Ordered(st.buffer)
    requires Truthful(log, s, st.buffer) && GapFree(Replayed(st, s))
    ensures Agrees(log, Install(depth, st, s).view)
  {
    SnapshotUpToDate(log, depth, st.view, s);
    InstallReaches(depth, st, s);
    ReplayUpToDate(log, depth, TakeSnapshot(depth, st.view, s), Replayed(st, s), s.lastUpdateId);
  }

  // ----- A server that wrote something in the gap -----

  /** The prices written up to id `hi`. */
  ghost function PricesTo(log: Log, hi: nat): set<real>
  {
    (set k | k in log(hi) :: k.1) + (if hi == 0 then {} else PricesTo(log, hi - 1))
  }

  lemma {:induction false} Written(log: Log, hi: nat, id: nat, k: Key)
    requires id <= hi && k in log(id)
    ensures k.1 in PricesTo(log, hi)
  {
    if id < hi {
      Written(log, hi - 1, id, k);
    }
  }

  lemma {:induction false} NeverWritten(log: Log, hi: nat, id: nat, k: Key)
    requires id <= hi && k.1 !in PricesTo(log, hi)
    ensures ServerAt(log, id, k) == 0.0
    decreases id
  {
    if k in log(id) {
      Written(log, hi, id, k);
    } else if id > 0 {
      NeverWritten(log, hi, id - 1, k);
    }
  }

  ghost function Above(ps: set<real>): (b: real)
    ensures forall p :: p in ps ==> p < b
  {
    if p :| p in ps then
      var b := Above(ps - {p});
      assert forall q :: q in ps ==> q == p || q in ps - {p};
      if p < b then b else p + 1.0
    else 0.0
  }

  /** The log with one bid more, written by update `g`. */
  function WithBid(log: Log, g: nat, p: real): Log
  {
    (id: nat) => if id == g then log(id)[(Bid, p) := 1.0] else log(id)
  }

  lemma {:induction false} WithBidServer(log: Log, g: nat, p: real, hi: nat, id: nat, k: Key)
    requires id <= hi && p !in PricesTo(log, hi)
    ensures ServerAt(WithBid(log, g, p), id, k)
            == if k == (Bid, p) then (if g <= id then 1.0 else 0.0) else ServerAt(log, id, k)
    decreases id
  {
    if k == (Bid, p) && k in log(id) {
      Written(log, hi, id, k);
    }
    if id > 0 {
      WithBidServer(log, g, p, hi, id - 1, k);
    }
  }

  lemma WithBidEvent(log: Log, g: nat, p: real, hi: nat, e: Event)
    requires FaithfulEvent(log, e) && e.final <= hi && p !in PricesTo(log, hi)
    requires g < e.first || e.final < g
    ensures FaithfulEvent(WithBid(log, g, p), e)
  {
    var log' := WithBid(log, g, p);
    forall k: Key
      ensures Touched(log', e.first, e.final, k) <==> Mentions(Writes(e, k.0), k.1)
      ensures Mentions(Writes(e, k.0), k.1) ==> LastWrite(Writes(e, k.0), k.1, 0.0) == ServerAt(log', e.final, k)
    {
      WithBidTouched(log, g, p, e.first, e.final, k);
      WithBidServer(log, g, p, hi, e.final, k);
      if k == (Bid, p) && Touched(log, e.first, e.final, k) {
        var id: nat :| e.first <= id <= e.final && k in log(id);
        Written(log, hi, id, k);
      }
    }
  }

  lemma WithBidTouched(log: Log, g: nat, p: real, lo: nat, hi: nat, k: Key)
    requires g < lo || hi < g
    ensures Touched(WithBid(log, g, p), lo, hi, k) <==> Touched(log, lo, hi, k)
  {
    forall id: nat | lo <= id <= hi
      ensures k in WithBid(log, g, p)(id) <==> k in log(id)
    {
    }
  }

  lemma WithBidTruthful(log: Log, s: Snapshot, events: seq<Event>, g: nat, p: real, hi: nat)
    requires Truthful(log, s, events) && p !in PricesTo(log, hi) && s.lastUpdateId < g <= hi
    requires forall e :: e in events ==> e.final <= hi && (g < e.first || e.final < g)
    ensures Truthful(WithBid(log, g, p), s, events)
  {
    forall e | e in events
      ensures FaithfulEvent(WithBid(log, g, p), e)
    {
      WithBidEvent(log, g, p, hi, e);
    }
    forall k: Key | Mentions(Contents(s, k.0), k.1)
      ensures LastWrite(Contents(s, k.0), k.1, 0.0) == ServerAt(WithBid(log, g, p), s.lastUpdateId, k)
    {
      WithBidServer(log, g, p, hi, s.lastUpdateId, k);
      if k == (Bid, p) {
        NeverWritten(log, hi, s.lastUpdateId, k);
      }
    }
  }

  /** The new bid is better than all the book has listed, omitted or lost, and the book lacks it. */
  lemma WithBidDiffers(log: Log, v: View, g: nat, p: real)
    requires v.base.lastUpdateId < g <= v.high && p !in PricesTo(log, v.high)
    requires forall q :: q in PricesTo(log, v.high) || q in v.bids.lost ==> q < p
    requires forall l :: l in v.bids.levels ==> l.price < p
    ensures !Agrees(WithBid(log, g, p), v)
  {
    var log', k: Key := WithBid(log, g, p), (Bid, p);
    forall q | Omitted(log', v.base, (Bid, q))
      ensures q < p
    {
      WithBidServer(log, g, p, v.high, v.base.lastUpdateId, (Bid, q));
      if q !in PricesTo(log, v.high) {
        NeverWritten(log, v.high, v.base.lastUpdateId, (Bid, q));
      }
    }
    assert Visible(log', v, k);
    WithBidServer(log, g, p, v.high, v.high, k);
    NoQuantity(v.bids.levels, p);
  }

  /** No event of an ordered buffer covers an id between two neighbours. */
  lemma GapUncovered(buffer: seq<Event>, i: nat, g: nat)
    requires Ordered(buffer) && i + 1 < |buffer| && buffer[i].final < g < buffer[i + 1].first
    ensures forall e :: e in buffer ==> e.final <= buffer[|buffer| - 1].final && (g < e.first || e.final < g)
  {
    forall j | 0 <= j < |buffer|
      ensures buffer[j].final <= buffer[|buffer| - 1].final
      ensures g < buffer[j].first || buffer[j].final < g
    {
    }
  }

  /** The id `g`, newer than the snapshot, is missing right after the `i`-th event. */
  ghost predicate GapAt(buffer: seq<Event>, s: Snapshot, i: nat, g: nat)
  {
    i + 1 < |buffer| && s.lastUpdateId < g && buffer[i].final < g < buffer[i + 1].first
  }

  lemma FindGap(buffer: seq<Event>, s: Snapshot, first: nat) returns (i: nat, g: nat)
    requires Ordered(buffer) && first < |buffer| && Covers(buffer[first], s.lastUpdateId + 1)
    requires !GapFree(buffer[first..])
    ensures GapAt(buffer, s, i, g)
  {
    var n, m :| 0 <= n < m < |buffer[first..]| && m == n + 1 && buffer[first..][n].final + 1 < buffer[first..][m].first;
    i := first + n;
    g := buffer[i].final + 1;
  }

  /** With a gap in the buffer some server explains all messages and has another book. */
  lemma GapDisagrees(truth: Log, v: View, s: Snapshot, buffer: seq<Event>, i: nat, g: nat) returns (log: Log)
    requires Ordered(buffer) && Truthful(truth, s, buffer) && GapAt(buffer, s, i, g)
    requires v.base == s && v.high == buffer[|buffer| - 1].final
    ensures Truthful(log, s, buffer) && !Agrees(log, v)
  {
    GapUncovered(buffer, i, g);
    assert buffer[i + 1] in buffer;
    var listed := set l | l in v.bids.levels :: l.price;
    var p := Above(PricesTo(truth, v.high) + v.bids.lost + listed);
    forall l | l in v.bids.levels
      ensures l.price < p
    {
      assert l.price in listed;
    }
    log := WithBid(truth, g, p);
    WithBidTruthful(truth, s, buffer, g, p, v.high);
    WithBidDiffers(truth, v, g, p);
  }

  lemma GapFreeSurely(depth: nat, st: Stream, s: Snapshot)
    requires st.view.bids == st.view.asks == EMPTY_SIDE && Ordered(st.buffer) && GapFree(Replayed(st, s))
    ensures SurelyAgrees(s, st.buffer, Install(depth, st, s).view)
  {
    forall log: Log | Truthful(log, s, st.buffer)
      ensures Agrees(log, Install(depth, st, s).view)
    {
      GapFreeAgrees(log, depth, st, s);
    }
  }

  lemma GapNotSurely(truth: Log, v: View, s: Snapshot, buffer: seq<Event>, first: nat)
    requires Ordered(buffer) && Truthful(truth, s, buffer)
    requires first < |buffer| && Covers(buffer[first], s.lastUpdateId + 1) && !GapFree(buffer[first..])
    requires v.base == s && v.high == buffer[|buffer| - 1].final
    ensures !SurelyAgrees(s, buffer, v)
  {
    var i, g := FindGap(buffer, s, first);
    var log := GapDisagrees(truth, v, s, buffer, i, g);
  }

  lemma InstalledIds(depth: nat, st: Stream, s: Snapshot)
    requires Ordered(st.buffer) && Search(st.buffer, s.lastUpdateId + 1) < |st.buffer|
    ensures var v := Install(depth, st, s).view; v.base == s && v.high == st.buffer[|st.buffer| - 1].final
  {
    InstallReaches(depth, st, s);
    InstallBase(depth, st, s);
  }

  /** A gap after the event found by the search is one in the events replayed. */
  lemma GapIsAfterFound(buffer: seq<Event>, id: nat)
    requires !GapFree(buffer[Search(buffer, id)..])
    ensures Search(buffer, id) < |buffer|
  {
  }

  lemma FoundNotSurely(truth: Log, v: View, s: Snapshot, buffer: seq<Event>, first: nat)
    requires Ordered(buffer) && Truthful(truth, s, buffer)
    requires first == Search(buffer, s.lastUpdateId + 1) && !GapFree(buffer[first..])
    requires buffer != [] && v.base == s && v.high == buffer[|buffer| - 1].final
    ensures !SurelyAgrees(s, buffer, v)
  {
    GapIsAfterFound(buffer, s.lastUpdateId + 1);
    GapNotSurely(truth, v, s, buffer, first);
  }

  lemma ReplayedNotSurely(truth: Log, v: View, s: Snapshot, st: Stream)
    requires Ordered(st.buffer) && Truthful(truth, s, st.buffer) && !GapFree(Replayed(st, s))
    requires st.buffer != [] && v.base == s && v.high == st.buffer[|st.buffer| - 1].final
    ensures !SurelyAgrees(s, st.buffer, v)
  {
    FoundNotSurely(truth, v, s, st.buffer, Search(st.buffer, s.lastUpdateId + 1));
  }

  lemma ReplayedIds(depth: nat, st: Stream, s: Snapshot)
    requires Ordered(st.buffer) && !GapFree(Replayed(st, s))
    ensures var v := Install(depth, st, s).view;
            st.buffer != [] && v.base == s && v.high == st.buffer[|st.buffer| - 1].final
  {
    GapIsAfterFound(st.buffer, s.lastUpdateId + 1);
    InstalledIds(depth, st, s);
  }

  lemma ReplayedAgreesIff(truth: Log, depth: nat, st: Stream, s: Snapshot)
    requires st.view.bids == st.view.asks == EMPTY_SIDE && Ordered(st.buffer) && Truthful(truth, s, st.buffer)
    ensures SurelyAgrees(s, st.buffer, Install(depth, st, s).view) <==> GapFree(Replayed(st, s))
  {
    if GapFree(Replayed(st, s)) {
      GapFreeSurely(depth, st, s);
    } else {
      ReplayedIds(depth, st, s);
      ReplayedNotSurely(truth, Install(depth, st, s).view, s, st);
    }
  }

  lemma {:induction false} PendingIsEmpty(depth: nat, inputs: seq<Input>)
    ensures var st := Run(depth, inputs); st.pending ==> st.view.bids == st.view.asks == EMPTY_SIDE
  {
    if inputs != [] {
      PendingIsEmpty(depth, inputs[..|inputs| - 1]);
    }
  }

  /** In every run whose buffered messages are in order: the book is sure to be the server's after
      the buffer has been replayed onto the snapshot `s`, exactly if no id is missing between the
      events replayed. Events before the one that continues the snapshot do not matter. */
  lemma ReplayAgreesIff(truth: Log, depth: nat, inputs: seq<Input>, s: Snapshot)
    requires var st := Run(depth, inputs); st.pending && Ordered(st.buffer) && Truthful(truth, s, st.buffer)
    ensures var st := Run(depth, inputs);
            SurelyAgrees(s, st.buffer, Install(depth, st, s).view) <==> GapFree(Replayed(st, s))
  {
    PendingIsEmpty(depth, inputs);
    ReplayedAgreesIff(truth, depth, Run(depth, inputs), s);
  }

  // ----- A run with a gap -----

  /** Updates 1 and 2 write the best bid, 3 and 4 an ask each. */
  function FourUpdates(): Log
  {
    (id: nat) => if id == 1 then map[(Bid, 1.0) := 5.0] else if id == 2 then map[(Bid, 1.0) := 7.0]
                 else if id == 3 then map[(Ask, 9.0) := 1.0] else if id == 4 then map[(Ask, 8.0) := 1.0] else map[]
  }

  const FIRST := Event(1, 1, [RawLevel(1.0, 5.0, None)], [])
  const THIRD := Event(3, 3, [], [RawLevel(9.0, 1.0, None)])
  const FOURTH := Event(4, 4, [], [RawLevel(8.0, 1.0, None)])
  const BLANK := Snapshot(0, [], [])

  lemma OneWriteFaithful(log: Log, e: Event, d: Direction, r: RawLevel)
    requires e.first == e.final && log(e.first) == map[(d, r.price) := r.volume]
    requires Writes(e, d) == [r] && forall d' :: d' != d ==> Writes(e, d') == []
    ensures FaithfulEvent(log, e)
  {
    forall k: Key
      ensures Touched(log, e.first, e.final, k) <==> Mentions(Writes(e, k.0), k.1)
      ensures Mentions(Writes(e, k.0), k.1) ==> LastWrite(Writes(e, k.0), k.1, 0.0) == ServerAt(log, e.final, k)
    {
      assert Touched(log, e.first, e.final, k) <==> k in log(e.first);
      if k == (d, r.price) {
        assert Writes(e, d)[0] == r;
      }
    }
  }

  lemma AllFaithful()
    ensures Truthful(FourUpdates(), BLANK, [FIRST, THIRD, FOURTH])
  {
    OneWriteFaithful(FourUpdates(), FIRST, Bid, FIRST.bids[0]);
    OneWriteFaithful(FourUpdates(), THIRD, Ask, THIRD.asks[0]);
    OneWriteFaithful(FourUpdates(), FOURTH, Ask, FOURTH.asks[0]);
  }

  /** While the snapshot is awaited two events are buffered, without the second update. */
  lemma BufferedWithGap()
    ensures Run(10, [Input(FIRST, None), Input(THIRD, None)]) == OPENED.(buffer := [FIRST, THIRD])
  {
    var i1, i2 := Input(FIRST, None), Input(THIRD, None);
    assert [i1, i2][..1] == [i1] && [i1][..0] == [];
    assert Run(10, [i1]) == OPENED.(buffer := [FIRST]);
  }

  /** Both are replayed onto the snapshot. */
  lemma ReplayedWithGap(v: View)
    requires v.bids == v.asks == EMPTY_SIDE && v.previous == v.high == 0
    ensures var w := Replay(10, v, [FIRST, THIRD], 0).0;
            w.previous == w.high == 3 && w.bids.levels == [Level(1.0, 5.0, 0)]
  {
    assert [FIRST, THIRD][..1] == [FIRST] && [FIRST][..0] == [];
    assert Replay(10, v, [FIRST], 0).0 == ApplyEvent(10, v, FIRST);
    assert Replay(10, v, [FIRST, THIRD], 0).0 == ApplyEvent(10, ApplyEvent(10, v, FIRST), THIRD);
  }

  lemma InstalledWithGap()
    ensures var st := Install(10, OPENED.(buffer := [FIRST, THIRD]), BLANK);
            && !st.pending && st.view.previous == st.view.high == 3
            && st.view.bids.levels == [Level(1.0, 5.0, 0)]
  {
    var st := OPENED.(buffer := [FIRST, THIRD]);
    assert Search(st.buffer, 1) == 0 && st.buffer[0..] == [FIRST, THIRD];
    ReplayedWithGap(TakeSnapshot(10, st.view, BLANK));
  }

  /** A gap goes unnoticed: with update 2 lost while buffering, messages the server would send lead
      to a book that is in step by its ids and wrong at the best bid. */
  lemma BufferGapGoesUnnoticed()
    ensures var st := Run(10, [Input(FIRST, None), Input(THIRD, None), Input(FOURTH, Some(BLANK))]);
            && Truthful(FourUpdates(), BLANK, [FIRST, THIRD, FOURTH])
            && !st.pending && st.view.previous == st.view.high == 4
            && st.view.bids.levels == [Level(1.0, 5.0, 0)] && ServerAt(FourUpdates(), 4, (Bid, 1.0)) == 7.0
  {
    var i1, i2, i3 := Input(FIRST, None), Input(THIRD, None), Input(FOURTH, Some(BLANK));
    assert [i1, i2, i3][..2] == [i1, i2];
    AllFaithful();
    BufferedWithGap();
    InstalledWithGap();
    var st := Install(10, OPENED.(buffer := [FIRST, THIRD]), BLANK);
    assert Run(10, [i1, i2, i3]) == Follow(10, st, FOURTH);
    assert ServerAt(FourUpdates(), 2, (Bid, 1.0)) == 7.0;
    assert ServerAt(FourUpdates(), 3, (Bid, 1.0)) == 7.0;
  }
}
