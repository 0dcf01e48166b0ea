/** The Binance order book stream: the protocol of module Resync, run on its own fields. */
module BinanceStreams {
  import opened Wrappers
  import opened OrderBooks
  import Resync

  class BinanceOrderBookStream {
    const orderBook: OrderBook
    var previousUpdateId: nat
    // A snapshot has been requested and not yet taken.
    var snapshotPending: bool
    var depthUpdates: seq<Resync.Event>
    ghost var high: nat
    ghost var base: Resync.Snapshot
    ghost var notified: seq<Resync.View>

    ghost predicate Valid()
      reads this, orderBook
    {
      orderBook.Valid() && (!snapshotPending ==> depthUpdates == [])
    }

    ghost function View(): Resync.View
      reads this, orderBook
    {
      Resync.View(orderBook.BidSide(), orderBook.AskSide(), previousUpdateId, high, base)
    }

    ghost function State(): Resync.Stream
      reads this, orderBook
    {
      Resync.Stream(View(), snapshotPending, depthUpdates, notified)
    }

    /** The stream as the opening of the connection leaves it. */
    constructor (depth: nat)
      ensures Valid() && fresh(orderBook) && orderBook.depth == depth
      ensures State() == Resync.OPENED
    {
      orderBook := new OrderBook(depth);
      previousUpdateId, snapshotPending, depthUpdates := 0, true, [];
      high, base, notified := 0, Resync.Snapshot(0, [], []), [];
    }

    /** Handles one decoded message. `ready` is the answer to the pending snapshot request, if
        it is there already. */
    method OnMessage(msg: Resync.Event, ready: Option<Resync.Snapshot>)
      requires Valid()
      modifies this, orderBook
      ensures Valid()
      ensures State() == Resync.OnMessage(orderBook.depth, old(State()), msg, ready)
    {
      if snapshotPending {
        if ready.None? {
          depthUpdates := depthUpdates + [msg];
          return;
        }
        InstallSnapshot(ready.value);
      }
      if previousUpdateId + 1 < msg.first {
        orderBook.Clear();
        snapshotPending := true;
        return;
      }
      ApplyUpdate(msg);
    }

    method InstallSnapshot(snapshot: Resync.Snapshot)
      requires Valid() && snapshotPending
      modifies this, orderBook
      ensures Valid()
      ensures State() == Resync.Install(orderBook.depth, old(State()), snapshot)
    {
      snapshotPending := false;
      LoadSnapshot(snapshot);
      if depthUpdates != [] {
        var i := SearchBuffer(depthUpdates, snapshot.lastUpdateId);
        ReplayFrom(i, snapshot.lastUpdateId);
        depthUpdates := [];
      }
    }

    /** Puts the snapshot into the book and shows the book to the listener. */
    method LoadSnapshot(snapshot: Resync.Snapshot)
      requires orderBook.Valid()
      modifies this`previousUpdateId, this`high, this`base, this`notified, orderBook
      ensures orderBook.Valid()
      ensures View() == Resync.TakeSnapshot(orderBook.depth, old(View()), snapshot)
      ensures notified == old(notified) + [View()]
    {
      previousUpdateId := snapshot.lastUpdateId;
      high, base := snapshot.lastUpdateId, snapshot;
      orderBook.Update(snapshot.bids, snapshot.asks);
      notified := notified + [View()];
    }

    static method SearchBuffer(events: seq<Resync.Event>, last: nat) returns (i: nat)
      requires events != []
      ensures i == Resync.Search(events, last + 1)
    {
      i := 0;
      while !(events[i].first <= last + 1 && events[i].final >= last + 1)
        invariant i < |events|
        invariant forall j :: 0 <= j < i ==> !Resync.Covers(events[j], last + 1)
        decreases |events| - i
      {
        i := i + 1;
        if i >= |events| {
          break;
        }
      }
    }

    method ReplayFrom(start: nat, last: nat)
      requires orderBook.Valid() && start <= |depthUpdates|
      modifies this`previousUpdateId, this`high, this`notified, orderBook
      ensures orderBook.Valid()
      ensures var (w, shown) := Resync.Replay(orderBook.depth, old(View()), depthUpdates[start..], last);
              View() == w && notified == old(notified) + shown
    {
      ghost var events := depthUpdates[start..];
      for i := start to |depthUpdates|
        invariant orderBook.Valid()
        invariant var (w, shown) := Resync.Replay(orderBook.depth, old(View()), events[..i - start], last);
                  View() == w && notified == old(notified) + shown
      {
        assert events[..i + 1 - start][..i - start] == events[..i - start];
        if depthUpdates[i].final <= last {
          continue;
        }
        ApplyUpdate(depthUpdates[i]);
      }
      assert events[..|depthUpdates| - start] == events;
    }

    /** Puts one event into the book and shows the book to the listener. */
    method ApplyUpdate(event: Resync.Event)
      requires orderBook.Valid()
      modifies this`previousUpdateId, this`high, this`notified, orderBook
      ensures orderBook.Valid()
      ensures View() == Resync.ApplyEvent(orderBook.depth, old(View()), event)
      ensures notified == old(notified) + [View()]
    {
      previousUpdateId, high := event.final, Max(high, event.final);
      orderBook.Update(event.bids, event.asks);
      notified := notified + [View()];
    }
  }
}
