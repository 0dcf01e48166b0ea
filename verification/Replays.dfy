/** Replaying recorded market data minute by minute to any number of listeners. */
module Replays {
  import opened Wrappers
  import opened Levels
  import FanOuts

  const BOOK_DEPTH: nat := 1000
  const MICROSECONDS_PER_MINUTE: nat := 60_000_000

  datatype Event =
    | BookTicker(arrived: nat, exchange: string, symbol: string, bid: real, ask: real)
    | TradeTicker(arrived: nat, exchange: string, symbol: string, price: real, quantity: real)
    | BookUpdate(arrived: nat, exchange: string, symbol: string, bids: seq<RawLevel>, asks: seq<RawLevel>)

  /** One stored document: the events of one stream in one minute. */
  datatype Document = Document(minute: int, events: seq<Event>)

  datatype Book = Book(exchange: string, symbol: string, bids: Side, asks: Side)

  /** One call of a listener; book updates come with the book as it was at the call. */
  datatype Delivery = Delivery(listener: nat, event: Event, shown: Option<Book>)

  // ----- Fan-out of one event -----

  /** The index of the book of a stream; the length when there is none yet. */
  function FindBook(books: seq<Book>, e: Event): (i: nat)
    ensures i <= |books|
    ensures i < |books| ==> books[i].exchange == e.exchange && books[i].symbol == e.symbol
    ensures forall j :: 0 <= j < i ==> !(books[j].exchange == e.exchange && books[j].symbol == e.symbol)
  {
    if books == [] || (books[0].exchange == e.exchange && books[0].symbol == e.symbol) then 0
    else 1 + FindBook(books[1..], e)
  }

  function WithBook(books: seq<Book>, e: Event): (books': seq<Book>)
    ensures FindBook(books, e) < |books'|
  {
    if FindBook(books, e) < |books| then books else books + [Book(e.exchange, e.symbol, EMPTY_SIDE, EMPTY_SIDE)]
  }

  function Updated(b: Book, e: Event): Book
    requires e.BookUpdate?
  {
    b.(bids := ApplyAll(Bid, BOOK_DEPTH, b.bids, e.bids), asks := ApplyAll(Ask, BOOK_DEPTH, b.asks, e.asks))
  }

  function UpdateBooks(books: seq<Book>, e: Event): seq<Book>
    requires e.BookUpdate?
  {
    var i, books' := FindBook(books, e), WithBook(books, e);
    books'[i := Updated(books'[i], e)]
  }

  /** One call: for a book update the book is brought up to date first. */
  function Serve(books: seq<Book>, e: Event, listener: nat): (seq<Book>, Delivery)
  {
    if e.BookUpdate? then
      var books' := UpdateBooks(books, e);
      (books', Delivery(listener, e, Some(books'[FindBook(books, e)])))
    else (books, Delivery(listener, e, None))
  }

  /** The books and the calls when the first `n` listeners are served. A book update is applied
      once for each of them. */
  function FanOut(books: seq<Book>, e: Event, n: nat): (seq<Book>, seq<Delivery>)
  {
    if n == 0 then (books, [])
    else
      var (books', calls) := FanOut(books, e, n - 1);
      var (books'', call) := Serve(books', e, n - 1);
      (books'', calls + [call])
  }

  function Deliver(books: seq<Book>, events: seq<Event>, n: nat): (seq<Book>, seq<Delivery>)
  {
    if events == [] then (books, [])
    else
      var (books', calls) := Deliver(books, events[..|events| - 1], n);
      var (books'', more) := FanOut(books', events[|events| - 1], n);
      (books'', calls + more)
  }

  /** What one listener got. */
  function ReceivedBy(calls: seq<Delivery>, listener: nat): seq<Event>
  {
    if calls == [] then []
    else
      var earlier, call := ReceivedBy(calls[..|calls| - 1], listener), calls[|calls| - 1];
      if call.listener == listener then earlier + [call.event] else earlier
  }

  lemma {:induction false} ReceivedConcat(a: seq<Delivery>, b: seq<Delivery>, listener: nat)
    ensures ReceivedBy(a + b, listener) == ReceivedBy(a, listener) + ReceivedBy(b, listener)
  {
    if b == [] {
      assert a + b == a;
    } else {
      ReceivedConcat(a, b[..|b| - 1], listener);
      assert (a + b)[..|a + b| - 1] == a + b[..|b| - 1];
    }
  }

  lemma {:induction false} FanOutReaches(books: seq<Book>, e: Event, n: nat, listener: nat)
    ensures ReceivedBy(FanOut(books, e, n).1, listener) == if listener < n then [e] else []
  {
    if n > 0 {
      FanOutReaches(books, e, n - 1, listener);
      var (books', calls) := FanOut(books, e, n - 1);
      var (books'', call) := Serve(books', e, n - 1);
      assert (calls + [call])[..|calls|] == calls;
    }
  }

  /** Every listener gets every event, in the order of delivery. */
  lemma {:induction false} EachListenerGetsAll(books: seq<Book>, events: seq<Event>, n: nat, listener: nat)
    requires listener < n
    ensures ReceivedBy(Deliver(books, events, n).1, listener) == events
  {
    if events != [] {
      var front, e := events[..|events| - 1], events[|events| - 1];
      EachListenerGetsAll(books, front, n, listener);
      var (books', calls) := Deliver(books, front, n);
      FanOutReaches(books', e, n, listener);
      ReceivedConcat(calls, FanOut(books', e, n).1, listener);
    }
  }

  lemma {:induction false} DeliverConcat(books: seq<Book>, a: seq<Event>, b: seq<Event>, n: nat)
    ensures var (books', calls) := Deliver(books, a, n); var (books'', more) := Deliver(books', b, n);
            var whole := Deliver(books, a + b, n);
            whole.0 == books'' && whole.1 == calls + more
  {
    if b == [] {
      assert a + b == a && Deliver(books, a, n).1 + [] == Deliver(books, a, n).1;
    } else {
      var front, e := b[..|b| - 1], b[|b| - 1];
      DeliverConcat(books, a, front, n);
      assert (a + b)[..|a + b| - 1] == a + front;
      var (books', calls) := Deliver(books, a, n);
      var (books'', more) := Deliver(books', front, n);
      assert (calls + more) + FanOut(books'', e, n).1 == calls + (more + FanOut(books'', e, n).1);
    }
  }

  /** The book of the stream, or the empty one it starts with. */
  function BookOf(books: seq<Book>, e: Event): Book
  {
    WithBook(books, e)[FindBook(books, e)]
  }

  ghost predicate Roomy(b: Book, e: Event)
    requires e.BookUpdate?
  {
    && Sorted(Bid, b.bids.levels) && |FanOuts.Prices(b.bids.levels) + FanOuts.RawPrices(e.bids)| <= BOOK_DEPTH
    && Sorted(Ask, b.asks.levels) && |FanOuts.Prices(b.asks.levels) + FanOuts.RawPrices(e.asks)| <= BOOK_DEPTH
  }

  lemma UpdateFinds(books: seq<Book>, e: Event)
    requires e.BookUpdate?
    ensures var books' := UpdateBooks(books, e);
            && FindBook(books', e) == FindBook(books, e) && WithBook(books', e) == books'
            && BookOf(books', e) == Updated(BookOf(books, e), e)
            && UpdateBooks(books', e) == books'[FindBook(books, e) := Updated(Updated(BookOf(books, e), e), e)]
  {
    var i, books' := FindBook(books, e), UpdateBooks(books, e);
    assert books'[i].exchange == e.exchange && books'[i].symbol == e.symbol;
    assert forall j :: 0 <= j < i ==> books'[j] == books[j];
  }

  /** With room for all its prices, an update leaves the same books for any number of listeners,
      and shows each of them the same book, as for a single one. */
  lemma {:induction false} FanOutIdempotent(books: seq<Book>, e: Event, n: nat)
    requires e.BookUpdate? && n > 0 && Roomy(BookOf(books, e), e)
    ensures var (books', calls) := FanOut(books, e, n);
            && books' == UpdateBooks(books, e)
            && forall call :: call in calls ==> call.shown == Some(Updated(BookOf(books, e), e))
  {
    var once := UpdateBooks(books, e);
    UpdateFinds(books, e);
    if n == 1 {
      assert FanOut(books, e, 0) == (books, []);
    } else {
      FanOutIdempotent(books, e, n - 1);
      UpdatedTwice(BookOf(books, e), e);
      assert UpdateBooks(once, e) == once;
    }
  }

  lemma UpdatedTwice(b: Book, e: Event)
    requires e.BookUpdate? && Roomy(b, e)
    ensures Updated(Updated(b, e), e) == Updated(b, e)
  {
    FanOuts.RepeatedOnce(Bid, BOOK_DEPTH, b.bids, e.bids, 1);
    FanOuts.RepeatedOnce(Bid, BOOK_DEPTH, b.bids, e.bids, 2);
    FanOuts.RepeatedOnce(Ask, BOOK_DEPTH, b.asks, e.asks, 1);
    FanOuts.RepeatedOnce(Ask, BOOK_DEPTH, b.asks, e.asks, 2);
  }

  // ----- The first update of a stream -----

  /** The update makes a new book, whose precisions the original takes from its first bid. */
  predicate Creates(books: seq<Book>, e: Event)
  {
    e.BookUpdate? && FindBook(books, e) == |books|
  }

  /** Whenever a book is created while the events are delivered, there is a first bid to read. */
  ghost predicate FirstBidsRead(events: seq<Event>, n: nat)
  {
    events == [] ||
      var front, e := events[..|events| - 1], events[|events| - 1];
      FirstBidsRead(front, n) && (n > 0 && Creates(Deliver([], front, n).0, e) ==> e.bids != [])
  }

  predicate SameStream(e: Event, f: Event)
  {
    e.BookUpdate? && f.BookUpdate? && e.exchange == f.exchange && e.symbol == f.symbol
  }

  /** The first update of its stream. */
  ghost predicate IsFirstUpdate(events: seq<Event>, i: nat)
    requires i < |events|
  {
    events[i].BookUpdate? && forall j :: 0 <= j < i ==> !SameStream(events[j], events[i])
  }

  lemma FoundIff(books: seq<Book>, e: Event)
    ensures FindBook(books, e) < |books|
            <==> exists b :: b in books && b.exchange == e.exchange && b.symbol == e.symbol
  {
  }

  lemma UpdateAddsStream(books: seq<Book>, e: Event, f: Event)
    requires e.BookUpdate?
    ensures FindBook(UpdateBooks(books, e), f) < |UpdateBooks(books, e)|
            <==> FindBook(books, f) < |books| || (e.exchange == f.exchange && e.symbol == f.symbol)
  {
    var i, books' := FindBook(books, e), UpdateBooks(books, e);
    FoundIff(books, f);
    FoundIff(books', f);
    assert books'[i].exchange == e.exchange && books'[i].symbol == e.symbol && books'[i] in books';
    assert forall j :: 0 <= j < |books| && j != i ==> books'[j] == books[j];
    assert forall j :: 0 <= j < |books| ==>
      books[j] in books && books'[j] in books' && books'[j].exchange == books[j].exchange && books'[j].symbol == books[j].symbol;
  }

  lemma {:induction false} FanOutAddsStream(books: seq<Book>, e: Event, n: nat, f: Event)
    requires f.BookUpdate?
    ensures var books' := FanOut(books, e, n).0;
            FindBook(books', f) < |books'| <==> FindBook(books, f) < |books| || (n > 0 && SameStream(e, f))
  {
    if n > 0 {
      FanOutAddsStream(books, e, n - 1, f);
      if e.BookUpdate? {
        UpdateAddsStream(FanOut(books, e, n - 1).0, e, f);
      }
    }
  }

  lemma {:induction false} DeliveredStreams(events: seq<Event>, n: nat, f: Event)
    requires f.BookUpdate? && n > 0
    ensures var books := Deliver([], events, n).0;
            FindBook(books, f) < |books| <==> exists j :: 0 <= j < |events| && SameStream(events[j], f)
  {
    if events != [] {
      var front, e := events[..|events| - 1], events[|events| - 1];
      DeliveredStreams(front, n, f);
      FanOutAddsStream(Deliver([], front, n).0, e, n, f);
      assert forall j :: 0 <= j < |front| ==> front[j] == events[j];
      assert events[|events| - 1] == e;
    }
  }

  /** The original reads the first bid of the update that creates a book, which is undefined if
      there is none. With any listener, every such read is defined exactly if the first update
      delivered of every stream lists a bid. */
  lemma {:induction false} FirstBidsReadIff(events: seq<Event>, n: nat)
    requires n > 0
    ensures FirstBidsRead(events, n)
            <==> forall i :: 0 <= i < |events| && IsFirstUpdate(events, i) ==> events[i].bids != []
  {
    if events != [] {
      var front, last := events[..|events| - 1], |events| - 1;
      FirstBidsReadIff(front, n);
      assert forall i :: 0 <= i < last ==> front[i] == events[i];
      assert forall i :: 0 <= i < last ==> (IsFirstUpdate(front, i) <==> IsFirstUpdate(events, i));
      if events[last].BookUpdate? {
        DeliveredStreams(front, n, events[last]);
      }
    }
  }

  // ----- Minute buckets -----

  /** The scan of the documents: the buckets flushed so far, the events not yet flushed and the
      minute of the last document. Minute 0 doubles as "no document yet". */
  datatype Scan = Scan(flushed: seq<seq<Event>>, pending: seq<Event>, previous: int)

  function Read(docs: seq<Document>): Scan
  {
    if docs == [] then Scan([], [], 0)
    else
      var scan, doc := Read(docs[..|docs| - 1]), docs[|docs| - 1];
      var previous := if scan.previous == 0 then doc.minute else scan.previous;
      if doc.minute > previous then Scan(scan.flushed + [scan.pending], doc.events, doc.minute)
      else Scan(scan.flushed, scan.pending + doc.events, doc.minute)
  }

  ghost predicate Chronological(events: seq<Event>)
  {
    forall i, j :: 0 <= i < j < |events| ==> events[i].arrived <= events[j].arrived
  }

  ghost predicate SortOf(sorted: seq<Event>, events: seq<Event>)
  {
    Chronological(sorted) && multiset(sorted) == multiset(events)
  }

  /** `runs` are the flushed buckets, each in some chronological order. */
  ghost predicate SortsOf(runs: seq<seq<Event>>, buckets: seq<seq<Event>>)
  {
    |runs| == |buckets| && forall i :: 0 <= i < |runs| ==> SortOf(runs[i], buckets[i])
  }

  function Flatten(runs: seq<seq<Event>>): seq<Event>
  {
    if runs == [] then [] else Flatten(runs[..|runs| - 1]) + runs[|runs| - 1]
  }

  function Minute(e: Event): int
  {
    e.arrived / MICROSECONDS_PER_MINUTE
  }

  /** Documents come in order of their minutes, and hold events of their own minute only. */
  ghost predicate Ordered(docs: seq<Document>)
  {
    && (forall i, j :: 0 <= i < j < |docs| ==> docs[i].minute <= docs[j].minute)
    && (forall i, e :: 0 <= i < |docs| && e in docs[i].events ==> Minute(e) == docs[i].minute)
  }

  /** The minute from which on the events are still pending. */
  function Base(docs: seq<Document>): int
  {
    if docs == [] then 0
    else
      var front, minute := docs[..|docs| - 1], docs[|docs| - 1].minute;
      if front == [] || (Read(front).previous != 0 && minute > Read(front).previous) then minute else Base(front)
  }

  ghost predicate Split(scan: Scan, base: int)
  {
    && (forall i, e :: 0 <= i < |scan.flushed| && e in scan.flushed[i] ==> Minute(e) < base)
    && (forall e :: e in scan.pending ==> base <= Minute(e) <= scan.previous)
    && (forall i, j, x, y :: 0 <= i < j < |scan.flushed| && x in scan.flushed[i] && y in scan.flushed[j] ==>
          Minute(x) < Minute(y))
  }

  lemma OrderedFront(docs: seq<Document>)
    requires Ordered(docs) && docs != []
    ensures Ordered(docs[..|docs| - 1])
    ensures |docs| > 1 ==> docs[|docs| - 2].minute <= docs[|docs| - 1].minute
  {
  }

  lemma FlushSplits(scan: Scan, base: int, doc: Document)
    requires Split(scan, base) && scan.previous < doc.minute
    requires forall e :: e in doc.events ==> Minute(e) == doc.minute
    requires base <= scan.previous
    ensures Split(Scan(scan.flushed + [scan.pending], doc.events, doc.minute), doc.minute)
  {
  }

  /** Flushed events all come before the base minute, pending ones from it on. */
  lemma {:induction false} ReadSplits(docs: seq<Document>)
    requires Ordered(docs)
    ensures Split(Read(docs), Base(docs))
    ensures docs != [] ==> Base(docs) <= Read(docs).previous == docs[|docs| - 1].minute
  {
    if docs != [] {
      var front, doc := docs[..|docs| - 1], docs[|docs| - 1];
      OrderedFront(docs);
      ReadSplits(front);
      var scan := Read(front);
      if front != [] && scan.previous != 0 && doc.minute > scan.previous {
        FlushSplits(scan, Base(front), doc);
      }
    }
  }

  /** The base is the last minute, except that minute 0 is held together with the next one. */
  lemma {:induction false} BaseCases(docs: seq<Document>)
    requires Ordered(docs) && docs != []
    ensures var last := docs[|docs| - 1].minute;
            if last > 0 && (exists i :: 0 <= i < |docs| && docs[i].minute == 0)
               && (forall i :: 0 <= i < |docs| ==> docs[i].minute <= 0 || docs[i].minute == last)
            then Base(docs) == 0 else Base(docs) == last
  {
    var front, n := docs[..|docs| - 1], |docs| - 1;
    OrderedFront(docs);
    ReadSplits(front);
    if front != [] {
      BaseCases(front);
      assert forall i :: 0 <= i < n ==> front[i] == docs[i];
      assert docs[n - 1] == front[n - 1];
    }
  }

  // ----- Chronology -----

  lemma {:induction false} FlattenMembers(runs: seq<seq<Event>>)
    ensures forall e :: e in Flatten(runs) <==> exists i :: 0 <= i < |runs| && e in runs[i]
  {
    if runs != [] {
      var front := runs[..|runs| - 1];
      FlattenMembers(front);
      assert forall i :: 0 <= i < |front| ==> front[i] == runs[i];
    }
  }

  lemma SortMembers(sorted: seq<Event>, events: seq<Event>)
    requires SortOf(sorted, events)
    ensures forall e :: e in sorted <==> e in events
  {
    assert forall e :: e in sorted <==> e in multiset(sorted);
    assert forall e :: e in events <==> e in multiset(events);
  }

  lemma {:induction false} FlattenChronological(runs: seq<seq<Event>>, buckets: seq<seq<Event>>)
    requires SortsOf(runs, buckets)
    requires forall i, j, x, y :: 0 <= i < j < |buckets| && x in buckets[i] && y in buckets[j] ==> Minute(x) < Minute(y)
    ensures Chronological(Flatten(runs))
    ensures multiset(Flatten(runs)) == multiset(Flatten(buckets))
  {
    if runs != [] {
      var n := |runs| - 1;
      var front, sorted := Flatten(runs[..n]), runs[n];
      FlattenChronological(runs[..n], buckets[..n]);
      FlattenMembers(runs[..n]);
      forall x, y | x in front && y in sorted
        ensures x.arrived <= y.arrived
      {
        var i :| 0 <= i < n && x in runs[i];
        SortMembers(runs[i], buckets[i]);
        SortMembers(sorted, buckets[n]);
        assert Minute(x) < Minute(y);
      }
      AppendChronological(front, sorted);
    }
  }

  lemma AppendChronological(a: seq<Event>, b: seq<Event>)
    requires Chronological(a) && Chronological(b)
    requires forall x, y :: x in a && y in b ==> x.arrived <= y.arrived
    ensures Chronological(a + b)
  {
  }

  // ----- Which events are delivered -----

  /** How often `e` was recorded. */
  function Recorded(docs: seq<Document>, e: Event): nat
  {
    if docs == [] then 0 else Recorded(docs[..|docs| - 1], e) + multiset(docs[|docs| - 1].events)[e]
  }

  /** The events of the documents before a minute. */
  function Before(docs: seq<Document>, minute: int): seq<Event>
  {
    if docs == [] then []
    else Before(docs[..|docs| - 1], minute) + if docs[|docs| - 1].minute < minute then docs[|docs| - 1].events else []
  }

  lemma {:induction false} ReadLosesNothing(docs: seq<Document>, e: Event)
    ensures multiset(Flatten(Read(docs).flushed))[e] + multiset(Read(docs).pending)[e] == Recorded(docs, e)
  {
    if docs != [] {
      var front := docs[..|docs| - 1];
      ReadLosesNothing(front, e);
      var flushed := Read(docs).flushed;
      assert flushed != Read(front).flushed ==> flushed[..|flushed| - 1] == Read(front).flushed;
    }
  }

  lemma {:induction false} BeforeCounts(docs: seq<Document>, minute: int, e: Event)
    requires Ordered(docs)
    ensures multiset(Before(docs, minute))[e] == if Minute(e) < minute then Recorded(docs, e) else 0
  {
    if docs != [] {
      OrderedFront(docs);
      BeforeCounts(docs[..|docs| - 1], minute, e);
      assert e in multiset(docs[|docs| - 1].events) ==> e in docs[|docs| - 1].events;
    }
  }

  lemma {:induction false} FlushedCounts(docs: seq<Document>, e: Event)
    requires Ordered(docs)
    ensures multiset(Flatten(Read(docs).flushed))[e] == if Minute(e) < Base(docs) then Recorded(docs, e) else 0
  {
    var scan := Read(docs);
    ReadLosesNothing(docs, e);
    ReadSplits(docs);
    FlattenMembers(scan.flushed);
    assert e in multiset(scan.pending) ==> e in scan.pending;
    assert e in multiset(Flatten(scan.flushed)) ==> e in Flatten(scan.flushed);
  }

  lemma {:induction false} RecordedSomewhere(docs: seq<Document>, e: Event)
    ensures Recorded(docs, e) > 0 <==> exists i :: 0 <= i < |docs| && e in docs[i].events
  {
    if docs != [] {
      var front := docs[..|docs| - 1];
      RecordedSomewhere(front, e);
      assert forall i :: 0 <= i < |front| ==> front[i] == docs[i];
      assert e in multiset(docs[|docs| - 1].events) <==> e in docs[|docs| - 1].events;
    }
  }

  /** There are events of minute 0, and no document lies between minute 0 and the last one. */
  ghost predicate ZeroWithheld(docs: seq<Document>)
    requires docs != []
  {
    var last := docs[|docs| - 1].minute;
    && last > 0
    && (exists i :: 0 <= i < |docs| && docs[i].minute == 0 && docs[i].events != [])
    && (forall i :: 0 <= i < |docs| ==> docs[i].minute <= 0 || docs[i].minute == last)
  }

  /** What is delivered is in global order of arrival. It is exactly the events of the minutes
      before the last one, unless events of minute 0, which the scan mistakes for the start, are
      withheld together with the last minute. */
  lemma {:induction false} ReplayChronological(docs: seq<Document>, runs: seq<seq<Event>>)
    requires Ordered(docs) && docs != [] && SortsOf(runs, Read(docs).flushed)
    ensures Chronological(Flatten(runs))
    ensures multiset(Flatten(runs)) == multiset(Before(docs, docs[|docs| - 1].minute)) <==> !ZeroWithheld(docs)
  {
    var flushed, last := Read(docs).flushed, docs[|docs| - 1].minute;
    ReadSplits(docs);
    FlattenChronological(runs, flushed);
    BaseCases(docs);
    if ZeroWithheld(docs) {
      var i :| 0 <= i < |docs| && docs[i].minute == 0 && docs[i].events != [];
      var e := docs[i].events[0];
      assert e in docs[i].events && Minute(e) == 0;
      RecordedSomewhere(docs, e);
      FlushedCounts(docs, e);
      BeforeCounts(docs, last, e);
      assert multiset(Flatten(runs))[e] != multiset(Before(docs, last))[e];
    } else {
      assert forall i :: 0 <= i < |docs| && docs[i].events != [] ==> docs[i].minute < Base(docs) || docs[i].minute == last;
      forall e
        ensures multiset(Flatten(runs))[e] == multiset(Before(docs, last))[e]
      {
        FlushedCounts(docs, e);
        BeforeCounts(docs, last, e);
        RecordedSomewhere(docs, e);
      }
      assert multiset(Flatten(runs)) == multiset(Before(docs, last));
    }
  }

  /** Every listener sees the recorded events in global order of arrival, whatever the order of
      events that arrived together, and exactly those of the minutes before the last. */
  lemma {:induction false} ListenersSeeReplay(docs: seq<Document>, runs: seq<seq<Event>>, books: seq<Book>, n: nat, listener: nat)
    requires Ordered(docs) && docs != [] && SortsOf(runs, Read(docs).flushed) && !ZeroWithheld(docs) && listener < n
    ensures var received := ReceivedBy(Deliver(books, Flatten(runs), n).1, listener);
            && Chronological(received)
            && multiset(received) == multiset(Before(docs, docs[|docs| - 1].minute))
            && |received| == |Flatten(runs)|
  {
    EachListenerGetsAll(books, Flatten(runs), n, listener);
    ReplayChronological(docs, runs);
  }
}
