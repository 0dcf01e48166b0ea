/** What the book shows while the snapshot is ahead of the messages. The replay of the buffer skips
    events the snapshot contains; the live path has no such test and puts them into the book again. */
module StaleMessages {
  import opened Wrappers
  import opened Levels
  import opened Resync
  import opened BufferGaps

  /** All writes of the messages to one side, in order. */
  function AllWrites(ms: seq<Event>, d: Direction): seq<RawLevel>
  {
    if ms == [] then [] else AllWrites(ms[..|ms| - 1], d) + Writes(ms[|ms| - 1], d)
  }

  /** At every price not lost to the depth limit that the messages write, they end with what the
      snapshot says; a price the snapshot does not list counts as empty. */
  ghost predicate EndAsSnapshot(v: View, ms: seq<Event>, s: Snapshot)
  {
    forall k: Key :: Clear(k.0, k.1, SideOf(v, k.0).lost) && Mentions(AllWrites(ms, k.0), k.1)
      ==> LastWrite(AllWrites(ms, k.0), k.1, 0.0) == LastWrite(Contents(s, k.0), k.1, 0.0)
  }

  // ----- The book behind its snapshot -----

  /** The snapshot's book, with the messages written over it. */
  function Overwritten(depth: nat, s: Snapshot, ms: seq<Event>, previous: nat): View
  {
    View(ApplyAll(Bid, depth, ApplyAll(Bid, depth, EMPTY_SIDE, s.bids), AllWrites(ms, Bid)),
         ApplyAll(Ask, depth, ApplyAll(Ask, depth, EMPTY_SIDE, s.asks), AllWrites(ms, Ask)),
         previous, s.lastUpdateId, s)
  }

  lemma OverwrittenNext(depth: nat, s: Snapshot, ms: seq<Event>, previous: nat, msg: Event)
    requires msg.final <= s.lastUpdateId
    ensures ApplyEvent(depth, Overwritten(depth, s, ms, previous), msg) == Overwritten(depth, s, ms + [msg], msg.final)
  {
    assert (ms + [msg])[..|ms|] == ms;
    ApplyAllConcat(Bid, depth, ApplyAll(Bid, depth, EMPTY_SIDE, s.bids), AllWrites(ms, Bid), msg.bids);
    ApplyAllConcat(Ask, depth, ApplyAll(Ask, depth, EMPTY_SIDE, s.asks), AllWrites(ms, Ask), msg.asks);
  }

  /** No event continues the snapshot when it is newer than the message after them. */
  lemma NothingReplayed(depth: nat, st: Stream, msg: Event, s: Snapshot)
    requires st.view.bids == st.view.asks == EMPTY_SIDE
    requires Ordered(st.buffer + [msg]) && msg.final < s.lastUpdateId
    ensures Install(depth, st, s).view == Overwritten(depth, s, [], s.lastUpdateId)
    ensures !Install(depth, st, s).pending
  {
    var all, i := st.buffer + [msg], Search(st.buffer, s.lastUpdateId + 1);
    assert all[|st.buffer|] == msg && forall j :: 0 <= j < |st.buffer| ==> all[j] == st.buffer[j];
    assert st.buffer[i..] == [];
    assert Install(depth, st, s).view == TakeSnapshot(depth, st.view, s);
  }

  lemma FirstStale(depth: nat, st: Stream, msg: Event, s: Snapshot)
    requires st.pending && st.view.bids == st.view.asks == EMPTY_SIDE
    requires Ordered(st.buffer + [msg]) && msg.final < s.lastUpdateId
    ensures var st' := OnMessage(depth, st, msg, Some(s));
            !st'.pending && st'.view == Overwritten(depth, s, [msg], msg.final) && st'.view in st'.notified
  {
    NothingReplayed(depth, st, msg, s);
    assert (st.buffer + [msg])[|st.buffer|] == msg;
    OverwrittenNext(depth, s, [], s.lastUpdateId, msg);
    assert [] + [msg] == [msg];
  }

  /** `after` starts with the message that comes with the snapshot `s`, follows the contiguous
      messages buffered in the run `before`, and does not reach the snapshot's id. */
  ghost predicate Behind(depth: nat, before: seq<Input>, after: seq<Input>, s: Snapshot)
  {
    && Run(depth, before).pending && after != [] && after[0].ready == Some(s)
    && Contiguous(Run(depth, before).buffer + Messages(after))
    && Messages(after)[|after| - 1].final < s.lastUpdateId
  }

  lemma ContiguousFront(buffer: seq<Event>, ms: seq<Event>)
    requires Contiguous(buffer + ms) && |ms| > 1
    ensures var n := |ms| - 1;
            && Contiguous(buffer + ms[..n])
            && ms[n].first == ms[n - 1].final + 1 && ms[n].first <= ms[n].final
  {
    var all, n := buffer + ms, |buffer| + |ms| - 1;
    assert buffer + ms[..|ms| - 1] == all[..n];
    assert all[n] == ms[|ms| - 1] && all[n - 1] == ms[|ms| - 2];
  }

  lemma BehindFront(depth: nat, before: seq<Input>, after: seq<Input>, s: Snapshot)
    requires Behind(depth, before, after, s) && |after| > 1
    ensures Behind(depth, before, after[..|after| - 1], s)
    ensures var ms, n := Messages(after), |after| - 1;
            ms[n].first == ms[n - 1].final + 1 && ms[n].first <= ms[n].final && ms[n] == after[n].msg
  {
    var ms, front := Messages(after), after[..|after| - 1];
    assert Messages(front) == ms[..|after| - 1];
    ContiguousFront(Run(depth, before).buffer, ms);
  }

  lemma RunNext(depth: nat, inputs: seq<Input>, input: Input)
    ensures Run(depth, inputs + [input]) == OnMessage(depth, Run(depth, inputs), input.msg, input.ready)
  {
    assert (inputs + [input])[..|inputs|] == inputs;
  }

  lemma NextStale(depth: nat, st: Stream, s: Snapshot, ms: seq<Event>, previous: nat, input: Input)
    requires !st.pending && st.view == Overwritten(depth, s, ms, previous)
    requires input.msg.first == previous + 1 && input.msg.final < s.lastUpdateId
    ensures var st' := OnMessage(depth, st, input.msg, input.ready);
            !st'.pending && st'.view == Overwritten(depth, s, ms + [input.msg], input.msg.final)
  {
    OverwrittenNext(depth, s, ms, previous, input.msg);
  }

  lemma {:induction false} BehindView(depth: nat, before: seq<Input>, after: seq<Input>, s: Snapshot)
    requires Behind(depth, before, after, s)
    ensures var st, ms := Run(depth, before + after), Messages(after);
            !st.pending && st.view == Overwritten(depth, s, ms, ms[|ms| - 1].final)
  {
    var n := |after| - 1;
    var front, last := after[..n], after[n];
    RunNext(depth, before + front, last);
    assert before + after == (before + front) + [last];
    if n == 0 {
      PendingIsEmpty(depth, before);
      assert before + front == before && Messages(after) == [last.msg];
      FirstStale(depth, Run(depth, before), last.msg, s);
    } else {
      BehindFront(depth, before, after, s);
      BehindView(depth, before, front, s);
      var ms := Messages(front);
      NextStale(depth, Run(depth, before + front), s, ms, ms[n - 1].final, last);
    }
  }

  // ----- What it shows -----

  lemma OverwrittenShows(depth: nat, s: Snapshot, ms: seq<Event>, previous: nat, k: Key)
    requires Clear(k.0, k.1, SideOf(Overwritten(depth, s, ms, previous), k.0).lost)
    ensures Quantity(SideOf(Overwritten(depth, s, ms, previous), k.0).levels, k.1)
            == if Mentions(AllWrites(ms, k.0), k.1) then LastWrite(AllWrites(ms, k.0), k.1, 0.0)
               else LastWrite(Contents(s, k.0), k.1, 0.0)
  {
    var d, p := k.0, k.1;
    var listed, ws := ApplyAll(d, depth, EMPTY_SIDE, Contents(s, d)), AllWrites(ms, d);
    ApplyAllSorted(d, depth, EMPTY_SIDE, Contents(s, d));
    ApplyAllWrites(d, depth, EMPTY_SIDE, Contents(s, d), p);
    ApplyAllWrites(d, depth, listed, ws, p);
    NoQuantity([], p);
    LastWriteMentions(ws, p, LastWrite(Contents(s, d), p, 0.0));
  }

  lemma AgreesWhenEqual(log: Log, depth: nat, s: Snapshot, ms: seq<Event>, previous: nat)
    requires FaithfulSnapshot(log, s) && EndAsSnapshot(Overwritten(depth, s, ms, previous), ms, s)
    ensures Agrees(log, Overwritten(depth, s, ms, previous))
  {
    var v := Overwritten(depth, s, ms, previous);
    forall k: Key | Visible(log, v, k)
      ensures Quantity(SideOf(v, k.0).levels, k.1) == ServerAt(log, v.high, k)
    {
      OverwrittenShows(depth, s, ms, previous, k);
      LastWriteMentions(Contents(s, k.0), k.1, 0.0);
      assert !Omitted(log, s, (k.0, k.1));
    }
  }

  // ----- A server whose snapshot omits nothing -----

  ghost function KeysTo(log: Log, hi: nat): set<Key>
  {
    log(hi).Keys + (if hi == 0 then {} else KeysTo(log, hi - 1))
  }

  lemma {:induction false} NoKeyNoValue(log: Log, hi: nat, k: Key)
    requires k !in KeysTo(log, hi)
    ensures ServerAt(log, hi, k) == 0.0
  {
    if hi > 0 {
      NoKeyNoValue(log, hi - 1, k);
    }
  }

  /** The log in which the snapshot's last update also empties every price it does not list. */
  ghost function Emptied(log: Log, s: Snapshot): Log
  {
    var unlisted := set k | k in KeysTo(log, s.lastUpdateId) && !Mentions(Contents(s, k.0), k.1);
    (id: nat) => if id == s.lastUpdateId then log(id) + (map k | k in unlisted :: 0.0) else log(id)
  }

  lemma {:induction false} EmptiedBefore(log: Log, s: Snapshot, id: nat, k: Key)
    requires id < s.lastUpdateId
    ensures ServerAt(Emptied(log, s), id, k) == ServerAt(log, id, k)
  {
    if id > 0 {
      EmptiedBefore(log, s, id - 1, k);
    }
  }

  lemma EmptiedAt(log: Log, s: Snapshot, k: Key)
    ensures ServerAt(Emptied(log, s), s.lastUpdateId, k)
            == if Mentions(Contents(s, k.0), k.1) then ServerAt(log, s.lastUpdateId, k) else 0.0
  {
    if s.lastUpdateId > 0 {
      EmptiedBefore(log, s, s.lastUpdateId - 1, k);
    }
    if k !in KeysTo(log, s.lastUpdateId) {
      NoKeyNoValue(log, s.lastUpdateId, k);
    }
  }

  lemma EmptiedEvent(log: Log, s: Snapshot, e: Event)
    requires FaithfulEvent(log, e) && e.final < s.lastUpdateId
    ensures FaithfulEvent(Emptied(log, s), e)
  {
    var log' := Emptied(log, s);
    forall k: Key
      ensures Touched(log', e.first, e.final, k) <==> Mentions(Writes(e, k.0), k.1)
      ensures Mentions(Writes(e, k.0), k.1) ==> LastWrite(Writes(e, k.0), k.1, 0.0) == ServerAt(log', e.final, k)
    {
      EmptiedBefore(log, s, e.final, k);
      assert Touched(log', e.first, e.final, k) <==> Touched(log, e.first, e.final, k) by {
        assert forall id: nat :: id <= e.final ==> log'(id) == log(id);
      }
    }
  }

  lemma EmptiedTruthful(log: Log, s: Snapshot, events: seq<Event>)
    requires Truthful(log, s, events) && forall e :: e in events ==> e.final < s.lastUpdateId
    ensures Truthful(Emptied(log, s), s, events)
  {
    forall e | e in events
      ensures FaithfulEvent(Emptied(log, s), e)
    {
      EmptiedEvent(log, s, e);
    }
    forall k: Key | Mentions(Contents(s, k.0), k.1)
      ensures LastWrite(Contents(s, k.0), k.1, 0.0) == ServerAt(Emptied(log, s), s.lastUpdateId, k)
    {
      EmptiedAt(log, s, k);
    }
  }

  lemma DiffersWhenNot(log: Log, depth: nat, s: Snapshot, ms: seq<Event>, previous: nat)
    requires FaithfulSnapshot(log, s) && !EndAsSnapshot(Overwritten(depth, s, ms, previous), ms, s)
    ensures !Agrees(Emptied(log, s), Overwritten(depth, s, ms, previous))
  {
    var v, log' := Overwritten(depth, s, ms, previous), Emptied(log, s);
    var k: Key :| Clear(k.0, k.1, SideOf(v, k.0).lost) && Mentions(AllWrites(ms, k.0), k.1)
                  && LastWrite(AllWrites(ms, k.0), k.1, 0.0) != LastWrite(Contents(s, k.0), k.1, 0.0);
    forall p
      ensures !Omitted(log', s, (k.0, p))
    {
      EmptiedAt(log, s, (k.0, p));
    }
    assert Visible(log', v, k);
    OverwrittenShows(depth, s, ms, previous, k);
    LastWriteMentions(Contents(s, k.0), k.1, 0.0);
    EmptiedAt(log, s, k);
  }

  // ----- Main result -----

  lemma OverwrittenAgreesIff(truth: Log, depth: nat, s: Snapshot, events: seq<Event>, ms: seq<Event>, previous: nat)
    requires Truthful(truth, s, events) && forall e :: e in events ==> e.final < s.lastUpdateId
    ensures var v := Overwritten(depth, s, ms, previous); SurelyAgrees(s, events, v) <==> EndAsSnapshot(v, ms, s)
  {
    var v := Overwritten(depth, s, ms, previous);
    if EndAsSnapshot(v, ms, s) {
      forall log: Log | Truthful(log, s, events)
        ensures Agrees(log, v)
      {
        AgreesWhenEqual(log, depth, s, ms, previous);
      }
    } else {
      EmptiedTruthful(truth, s, events);
      DiffersWhenNot(truth, depth, s, ms, previous);
    }
  }

  lemma AllBefore(events: seq<Event>, last: nat)
    requires Ordered(events) && events != [] && events[|events| - 1].final < last
    ensures forall e :: e in events ==> e.final < last
  {
    forall i | 0 <= i < |events|
      ensures events[i].final < last
    {
    }
  }

  /** In every run, as long as contiguous messages have not reached the snapshot they were put over,
      the book is sure to be the server's at the snapshot's id exactly if the messages end, at
      every price they write that is not lost, with what the snapshot says. */
  lemma {:induction false} BehindAgreesIff(truth: Log, depth: nat, before: seq<Input>, after: seq<Input>, s: Snapshot)
    requires Behind(depth, before, after, s)
    requires Truthful(truth, s, Run(depth, before).buffer + Messages(after))
    ensures var v := Run(depth, before + after).view;
            && v.high == s.lastUpdateId
            && (SurelyAgrees(s, Run(depth, before).buffer + Messages(after), v) <==> EndAsSnapshot(v, Messages(after), s))
  {
    var ms, events := Messages(after), Run(depth, before).buffer + Messages(after);
    BehindView(depth, before, after, s);
    assert events[|events| - 1] == ms[|ms| - 1];
    AllBefore(events, s.lastUpdateId);
    OverwrittenAgreesIff(truth, depth, s, events, ms, ms[|ms| - 1].final);
  }

  // ----- A run that shows a stale bid -----

  const NEWER := Snapshot(2, [RawLevel(1.0, 7.0, None)], [])

  lemma NewerTruthful()
    ensures Truthful(FourUpdates(), NEWER, [FIRST])
  {
    OneWriteFaithful(FourUpdates(), FIRST, Bid, FIRST.bids[0]);
    assert ServerAt(FourUpdates(), 2, (Bid, 1.0)) == 7.0;
  }

  lemma FirstOverNewer()
    ensures var v := Overwritten(10, NEWER, [FIRST], 1);
            v.bids == Side([Level(1.0, 5.0, 0)], {}) && v.asks == EMPTY_SIDE
  {
    assert [FIRST][..0] == [] && AllWrites([FIRST], Bid) == FIRST.bids && AllWrites([FIRST], Ask) == [];
    assert NEWER.bids[..0] == [] && FIRST.bids[..0] == [];
    assert ApplyAll(Bid, 10, EMPTY_SIDE, NEWER.bids) == Side([Level(1.0, 7.0, 0)], {});
  }

  lemma NothingOmitted()
    ensures forall p :: !Omitted(FourUpdates(), NEWER, (Bid, p))
  {
    forall p: real
      ensures !Omitted(FourUpdates(), NEWER, (Bid, p))
    {
      if p == 1.0 {
        assert NEWER.bids[0].price == p;
      } else {
        assert ServerAt(FourUpdates(), 0, (Bid, p)) == 0.0;
        assert ServerAt(FourUpdates(), 1, (Bid, p)) == 0.0;
      }
    }
  }

  lemma StaleBidDisagrees(v: View)
    requires v.bids == Side([Level(1.0, 5.0, 0)], {}) && v.high == 2 && v.base == NEWER
    ensures Visible(FourUpdates(), v, (Bid, 1.0)) && !Agrees(FourUpdates(), v)
    ensures ServerAt(FourUpdates(), 2, (Bid, 1.0)) == 7.0
  {
    var best: Key := (Bid, 1.0);
    NothingOmitted();
    assert Visible(FourUpdates(), v, best);
    QuantityOf(Bid, v.bids.levels, v.bids.levels[0]);
  }

  /** With update 2 in the snapshot, update 1 comes live and is written over it: the listener is
      shown a best bid that the server no longer has. */
  lemma StaleMessageShown()
    ensures var st := Run(10, [Input(FIRST, Some(NEWER))]);
            && Truthful(FourUpdates(), NEWER, [FIRST]) && !st.pending && st.view in st.notified
            && st.view.bids.levels == [Level(1.0, 5.0, 0)] && st.view.high == 2
            && Visible(FourUpdates(), st.view, (Bid, 1.0)) && ServerAt(FourUpdates(), 2, (Bid, 1.0)) == 7.0
            && !Agrees(FourUpdates(), st.view)
  {
    assert OPENED.buffer + [FIRST] == [FIRST];
    NewerTruthful();
    RunNext(10, [], Input(FIRST, Some(NEWER)));
    assert [] + [Input(FIRST, Some(NEWER))] == [Input(FIRST, Some(NEWER))];
    FirstStale(10, OPENED, FIRST, NEWER);
    FirstOverNewer();
    StaleBidDisagrees(Overwritten(10, NEWER, [FIRST], 1));
  }
}
