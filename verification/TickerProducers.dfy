/** The producer that reads the documents, sorts each minute and calls the listeners. */
module TickerProducers {
  import opened Wrappers
  import opened Replays
  import Levels

  /** The first `i` documents have been read: `runs` were flushed and `pending` was not. */
  ghost predicate Scanned(docs: seq<Document>, i: nat, runs: seq<seq<Event>>, pending: seq<Event>, previous: int)
    requires i <= |docs|
  {
    var scan := Read(docs[..i]);
    SortsOf(runs, scan.flushed) && pending == scan.pending && previous == scan.previous
  }

  /** One more run of events, sorted, has been flushed. */
  ghost predicate Flushed(runs: seq<seq<Event>>, events: seq<Event>, runs': seq<seq<Event>>)
  {
    |runs'| == |runs| + 1 && runs'[..|runs|] == runs && SortOf(runs'[|runs|], events)
  }

  lemma FlushStep(
      docs: seq<Document>, i: nat, runs: seq<seq<Event>>, pending: seq<Event>, previous: int, runs': seq<seq<Event>>)
    requires i < |docs| && Scanned(docs, i, runs, pending, previous)
    requires previous != 0 && docs[i].minute > previous && Flushed(runs, pending, runs')
    ensures Scanned(docs, i + 1, runs', docs[i].events, docs[i].minute)
  {
    assert docs[..i + 1][..i] == docs[..i];
    var flushed := Read(docs[..i]).flushed;
    forall k | 0 <= k < |runs'|
      ensures SortOf(runs'[k], (flushed + [pending])[k])
    {
      if k < |runs| { assert runs'[k] == runs[k]; }
    }
  }

  lemma GatherStep(docs: seq<Document>, i: nat, runs: seq<seq<Event>>, pending: seq<Event>, previous: int)
    requires i < |docs| && Scanned(docs, i, runs, pending, previous)
    requires previous == 0 || docs[i].minute <= previous
    ensures Scanned(docs, i + 1, runs, pending + docs[i].events, docs[i].minute)
  {
    assert docs[..i + 1][..i] == docs[..i];
  }

  lemma FlattenNext(runs: seq<seq<Event>>, sorted: seq<Event>, events: seq<Event>)
    requires SortOf(sorted, events)
    ensures Flatten(runs + [sorted]) == Flatten(runs) + sorted && |sorted| == |events|
    ensures Flushed(runs, events, runs + [sorted])
  {
    assert (runs + [sorted])[..|runs|] == runs;
    assert |multiset(sorted)| == |multiset(events)|;
  }

  lemma Associative<T>(a: seq<T>, b: seq<T>, c: seq<T>)
    ensures (a + b) + c == a + (b + c)
  {
  }

  class MongoTickerProducer {
    var listenerCount: nat
    var orderBooks: seq<Book>
    // The calls of the listeners, in order.
    ghost var calls: seq<Delivery>

    constructor (listeners: nat)
      ensures listenerCount == listeners && orderBooks == [] && calls == []
    {
      listenerCount, orderBooks, calls := listeners, [], [];
    }

    /** From `books` and `earlier` calls, the listeners have been served the events of `runs`. */
    ghost predicate Served(books: seq<Book>, earlier: seq<Delivery>, runs: seq<seq<Event>>)
      reads this
    {
      var (books', more) := Deliver(books, Flatten(runs), listenerCount);
      orderBooks == books' && calls == earlier + more
    }

    /** Reads the documents and flushes each minute when a later one begins; the last minute read
        is never flushed. `runs` are the flushed buckets in their order of delivery. */
    method Produce(docs: seq<Document>) returns (total: int, ghost runs: seq<seq<Event>>)
      requires forall i, j :: 0 <= i < j < |docs| ==> docs[i].minute <= docs[j].minute
      modifies this`orderBooks, this`calls
      ensures SortsOf(runs, Read(docs).flushed)
      ensures total == |Flatten(runs)|
      ensures Served(old(orderBooks), old(calls), runs)
    {
      var eventsVec: seq<Event> := [];
      var previous := 0;
      total, runs := 0, [];
      for i := 0 to |docs|
        invariant Scanned(docs, i, runs, eventsVec, previous)
        invariant i > 0 ==> previous == docs[i - 1].minute
        invariant total == |Flatten(runs)|
        invariant Served(old(orderBooks), old(calls), runs)
      {
        ghost var before, pending, last := runs, eventsVec, previous;
        var minute := docs[i].minute;
        if previous == 0 {
          previous := minute;
        }
        if minute > previous {
          total := total + |eventsVec|;
          runs := FlushBucket(eventsVec, old(orderBooks), old(calls), runs);
          FlushStep(docs, i, before, pending, last, runs);
          eventsVec := [];
        } else {
          GatherStep(docs, i, before, pending, last);
        }
        eventsVec := eventsVec + docs[i].events;
        assert minute >= previous;
        previous := minute;
      }
      assert docs[..|docs|] == docs;
    }

    method FlushBucket(events: seq<Event>, ghost books: seq<Book>, ghost earlier: seq<Delivery>, ghost runs: seq<seq<Event>>)
      returns (ghost runs': seq<seq<Event>>)
      requires Served(books, earlier, runs)
      modifies this`orderBooks, this`calls
      ensures Flushed(runs, events, runs')
      ensures |Flatten(runs')| == |Flatten(runs)| + |events|
      ensures Served(books, earlier, runs')
    {
      ghost var before, served := orderBooks, Deliver(books, Flatten(runs), listenerCount);
      ghost var sorted := FlushEvents(events);
      ghost var more := Deliver(before, sorted, listenerCount);
      Associative(earlier, served.1, more.1);
      runs' := runs + [sorted];
      FlattenNext(runs, sorted, events);
      DeliverConcat(books, Flatten(runs), sorted, listenerCount);
    }

    /** Sorts the events by arrival and calls every listener with each. */
    method FlushEvents(events: seq<Event>) returns (ghost delivered: seq<Event>)
      modifies this`orderBooks, this`calls
      ensures SortOf(delivered, events)
      ensures orderBooks == Deliver(old(orderBooks), delivered, listenerCount).0
      ensures calls == old(calls) + Deliver(old(orderBooks), delivered, listenerCount).1
    {
      var sorted := SortByArrival(events);
      delivered := sorted;
      for i := 0 to |sorted|
        invariant orderBooks == Deliver(old(orderBooks), sorted[..i], listenerCount).0
        invariant calls == old(calls) + Deliver(old(orderBooks), sorted[..i], listenerCount).1
      {
        assert sorted[..i + 1][..i] == sorted[..i];
        ghost var earlier := Deliver(old(orderBooks), sorted[..i], listenerCount).1;
        ghost var more := FanOut(orderBooks, sorted[i], listenerCount).1;
        CallListeners(sorted[i]);
        Associative(old(calls), earlier, more);
      }
      assert sorted[..|sorted|] == sorted;
    }

    method CallListeners(event: Event)
      modifies this`orderBooks, this`calls
      ensures orderBooks == FanOut(old(orderBooks), event, listenerCount).0
      ensures calls == old(calls) + FanOut(old(orderBooks), event, listenerCount).1
    {
      for listener := 0 to listenerCount
        invariant orderBooks == FanOut(old(orderBooks), event, listener).0
        invariant calls == old(calls) + FanOut(old(orderBooks), event, listener).1
      {
        ghost var (books, earlier) := FanOut(old(orderBooks), event, listener);
        CallListener(listener, event);
        Associative(old(calls), earlier, [Serve(books, event, listener).1]);
      }
    }

    method CallListener(listener: nat, event: Event)
      modifies this`orderBooks, this`calls
      ensures orderBooks == Serve(old(orderBooks), event, listener).0
      ensures calls == old(calls) + [Serve(old(orderBooks), event, listener).1]
    {
      if event.BookUpdate? {
        var i := GetOrCreateOrderBook(event);
        orderBooks := orderBooks[i := Updated(orderBooks[i], event)];
        calls := calls + [Delivery(listener, event, Some(orderBooks[i]))];
      } else {
        calls := calls + [Delivery(listener, event, None)];
      }
    }

    method GetOrCreateOrderBook(update: Event) returns (i: nat)
      requires update.BookUpdate?
      modifies this`orderBooks
      ensures orderBooks == WithBook(old(orderBooks), update) && i == FindBook(old(orderBooks), update)
    {
      i := 0;
      while i < |orderBooks|
        invariant i <= |orderBooks|
        invariant forall j :: 0 <= j < i ==> !(orderBooks[j].exchange == update.exchange && orderBooks[j].symbol == update.symbol)
      {
        if orderBooks[i].exchange == update.exchange && orderBooks[i].symbol == update.symbol {
          return;
        }
        i := i + 1;
      }
      orderBooks := orderBooks + [Book(update.exchange, update.symbol, Levels.EMPTY_SIDE, Levels.EMPTY_SIDE)];
    }

    /** The library sort, of which only this much is used: the result is in order of arrival and
        has the same events. Nothing is promised for events that arrived together. */
    static method SortByArrival(events: seq<Event>) returns (sorted: seq<Event>)
      ensures SortOf(sorted, events)
    {
      sorted := [];
      for i := 0 to |events|
        invariant SortOf(sorted, events[..i])
      {
        assert events[..i + 1] == events[..i] + [events[i]];
        sorted := InsertByArrival(sorted, events[i]);
      }
      assert events[..|events|] == events;
    }

    static method InsertByArrival(sorted: seq<Event>, event: Event) returns (result: seq<Event>)
      requires Chronological(sorted)
      ensures SortOf(result, sorted + [event])
    {
      var k := |sorted|;
      while k > 0 && sorted[k - 1].arrived > event.arrived
        invariant 0 <= k <= |sorted|
        invariant forall j :: k <= j < |sorted| ==> event.arrived < sorted[j].arrived
      {
        k := k - 1;
      }
      result := sorted[..k] + [event] + sorted[k..];
      InsertKeepsOrder(sorted, k, event);
    }
  }

  lemma InsertKeepsOrder(sorted: seq<Event>, k: nat, event: Event)
    requires Chronological(sorted) && k <= |sorted|
    requires k > 0 ==> sorted[k - 1].arrived <= event.arrived
    requires forall j :: k <= j < |sorted| ==> event.arrived < sorted[j].arrived
    ensures SortOf(sorted[..k] + [event] + sorted[k..], sorted + [event])
  {
    var front, back := sorted[..k], sorted[k..];
    assert Chronological(front + [event]) by {
      assert forall i :: 0 <= i < k ==> sorted[i].arrived <= event.arrived;
      AppendChronological(front, [event]);
    }
    AppendChronological(front + [event], back);
    InsertKeepsEvents(sorted, k, event);
  }

  lemma InsertKeepsEvents(sorted: seq<Event>, k: nat, event: Event)
    requires k <= |sorted|
    ensures multiset(sorted[..k] + [event] + sorted[k..]) == multiset(sorted + [event])
  {
    assert sorted == sorted[..k] + sorted[k..];
  }
}
