/** Which books the replay shows to the listeners. */
module ReplayBooks {
  import opened Wrappers
  import opened Levels
  import opened Replays
  import FanOuts

  function SideOf(b: Book, d: Direction): Side
  {
    if d == Bid then b.bids else b.asks
  }

  function WritesOf(e: Event, d: Direction): seq<RawLevel>
    requires e.BookUpdate?
  {
    if d == Bid then e.bids else e.asks
  }

  predicate Belongs(b: Book, e: Event)
  {
    b.exchange == e.exchange && b.symbol == e.symbol
  }

  ghost predicate BookSorted(b: Book)
  {
    forall d :: Sorted(d, SideOf(b, d).levels) && |SideOf(b, d).levels| <= BOOK_DEPTH
  }

  ghost predicate BooksSorted(books: seq<Book>)
  {
    forall b :: b in books ==> BookSorted(b)
  }

  // ----- One call -----

  /** The book `after` is `before` with the writes of `e`, on both sides, at every price that was
      not lost to the depth limit. */
  ghost predicate ShowsWrites(before: Book, e: Event, after: Book)
    requires e.BookUpdate?
  {
    forall d, p :: Clear(d, p, SideOf(after, d).lost)
      ==> Quantity(SideOf(after, d).levels, p) == LastWrite(WritesOf(e, d), p, Quantity(SideOf(before, d).levels, p))
  }

  lemma UpdatedShows(b: Book, e: Event)
    requires e.BookUpdate? && BookSorted(b)
    ensures ShowsWrites(b, e, Updated(b, e)) && BookSorted(Updated(b, e))
  {
    var after := Updated(b, e);
    forall d, p | Clear(d, p, SideOf(after, d).lost)
      ensures Quantity(SideOf(after, d).levels, p) == LastWrite(WritesOf(e, d), p, Quantity(SideOf(b, d).levels, p))
    {
      ApplyAllWrites(d, BOOK_DEPTH, SideOf(b, d), WritesOf(e, d), p);
    }
    forall d
      ensures Sorted(d, SideOf(after, d).levels) && |SideOf(after, d).levels| <= BOOK_DEPTH
    {
      ApplyAllSorted(d, BOOK_DEPTH, SideOf(b, d), WritesOf(e, d));
    }
  }

  /** One call of one listener. For a book update it is shown the book of the event's stream, with
      the writes of the update on both sides; the books of all other streams stay as they were. Any
      other event comes without a book. */
  lemma CallShows(books: seq<Book>, e: Event, listener: nat, f: Event)
    requires BooksSorted(books)
    ensures var (books', call) := Serve(books, e, listener);
            && call.listener == listener && call.event == e && BooksSorted(books')
            && (e.BookUpdate? ==>
                  && call.shown.Some? && Belongs(call.shown.value, e)
                  && ShowsWrites(BookOf(books, e), e, call.shown.value)
                  && BookOf(books', e) == call.shown.value
                  && (!(f.exchange == e.exchange && f.symbol == e.symbol) ==> BookOf(books', f) == BookOf(books, f)))
            && (!e.BookUpdate? ==> call.shown.None? && books' == books)
  {
    if e.BookUpdate? {
      BookOfSorted(books, e);
      UpdatedShows(BookOf(books, e), e);
      UpdateFinds(books, e);
      if !(f.exchange == e.exchange && f.symbol == e.symbol) { OtherStream(books, e, f); }
      UpdateSorted(books, e);
    }
  }

  lemma BookOfSorted(books: seq<Book>, e: Event)
    requires BooksSorted(books)
    ensures BookSorted(BookOf(books, e)) && Belongs(BookOf(books, e), e)
  {
    if FindBook(books, e) < |books| {
      assert books[FindBook(books, e)] in books;
    }
  }

  lemma UpdateSorted(books: seq<Book>, e: Event)
    requires BooksSorted(books) && e.BookUpdate?
    ensures BooksSorted(UpdateBooks(books, e))
  {
    BookOfSorted(books, e);
    UpdatedShows(BookOf(books, e), e);
    var i, books' := FindBook(books, e), UpdateBooks(books, e);
    forall j | 0 <= j < |books'|
      ensures BookSorted(books'[j])
    {
      if j != i { assert books'[j] in books; }
    }
  }

  /** An update of one stream leaves the book of another as it was, and in its place. */
  lemma OtherStream(books: seq<Book>, e: Event, f: Event)
    requires e.BookUpdate? && !(f.exchange == e.exchange && f.symbol == e.symbol)
    ensures BookOf(UpdateBooks(books, e), f) == BookOf(books, f)
  {
    var i, k := FindBook(books, e), FindBook(books, f);
    var books' := UpdateBooks(books, e);
    UpdateAt(books, e);
    if k < |books| {
      FirstBook(books', f, k);
    } else {
      NoBook(books', f);
    }
  }

  lemma UpdateAt(books: seq<Book>, e: Event)
    requires e.BookUpdate?
    ensures var i, books' := FindBook(books, e), UpdateBooks(books, e);
            && |books'| == (if i < |books| then |books| else |books| + 1) && Belongs(books'[i], e)
            && forall j :: 0 <= j < |books'| && j != i ==> j < |books| && books'[j] == books[j]
  {
  }

  lemma NoBook(books: seq<Book>, e: Event)
    requires forall j :: 0 <= j < |books| ==> !Belongs(books[j], e)
    ensures FindBook(books, e) == |books|
  {
  }

  lemma FirstBook(books: seq<Book>, e: Event, k: nat)
    requires k < |books| && Belongs(books[k], e) && forall j :: 0 <= j < k ==> !Belongs(books[j], e)
    ensures FindBook(books, e) == k
  {
  }

  // ----- Whole replays -----

  /** All writes to one side of the stream of `f`, in order. */
  function StreamWrites(events: seq<Event>, f: Event, d: Direction): seq<RawLevel>
  {
    if events == [] then []
    else
      var earlier, e := StreamWrites(events[..|events| - 1], f, d), events[|events| - 1];
      if SameStream(e, f) then earlier + WritesOf(e, d) else earlier
  }

  /** The prices the stream has written on each side number at most the depth. */
  ghost predicate StreamFits(events: seq<Event>, f: Event)
  {
    forall d :: |FanOuts.RawPrices(StreamWrites(events, f, d))| <= BOOK_DEPTH
  }

  /** The book of the stream: at each price its last write, each write applied once. */
  ghost predicate IsStreamBook(b: Book, events: seq<Event>, f: Event)
  {
    && Belongs(b, f)
    && forall d ::
         && SideOf(b, d) == ApplyAll(d, BOOK_DEPTH, EMPTY_SIDE, StreamWrites(events, f, d))
         && Sorted(d, SideOf(b, d).levels) && SideOf(b, d).lost == {}
         && forall x :: x in SideOf(b, d).levels <==>
              var last := FanOuts.LastRaw(StreamWrites(events, f, d), x.price);
              last.Some? && last.value.volume != 0.0 && x == Stored(last.value)
  }

  lemma WritesNext(events: seq<Event>, e: Event, f: Event, d: Direction)
    ensures StreamWrites(events + [e], f, d)
            == if SameStream(e, f) then StreamWrites(events, f, d) + WritesOf(e, d) else StreamWrites(events, f, d)
  {
    assert (events + [e])[..|events|] == events;
  }

  lemma FewerPrices(a: seq<RawLevel>, b: seq<RawLevel>)
    ensures |FanOuts.RawPrices(a)| <= |FanOuts.RawPrices(a + b)| && |FanOuts.RawPrices(b)| <= |FanOuts.RawPrices(a + b)|
  {
    assert forall r :: r in a || r in b <==> r in a + b;
    Smaller(FanOuts.RawPrices(a), FanOuts.RawPrices(a + b));
    Smaller(FanOuts.RawPrices(b), FanOuts.RawPrices(a + b));
  }

  lemma {:induction false} Smaller(a: set<real>, b: set<real>)
    requires a <= b
    ensures |a| <= |b|
  {
    assert b == a + (b - a);
  }

  lemma FitsBefore(events: seq<Event>, e: Event, f: Event)
    requires StreamFits(events + [e], f)
    ensures StreamFits(events, f)
  {
    forall d
      ensures |FanOuts.RawPrices(StreamWrites(events, f, d))| <= BOOK_DEPTH
    {
      WritesNext(events, e, f, d);
      if SameStream(e, f) {
        FewerPrices(StreamWrites(events, f, d), WritesOf(e, d));
      }
    }
  }

  lemma FittingBook(b: Book, events: seq<Event>, f: Event)
    requires StreamFits(events, f) && Belongs(b, f)
    requires forall d :: SideOf(b, d) == ApplyAll(d, BOOK_DEPTH, EMPTY_SIDE, StreamWrites(events, f, d))
    ensures IsStreamBook(b, events, f)
  {
    forall d
      ensures Sorted(d, SideOf(b, d).levels) && SideOf(b, d).lost == {}
      ensures forall x :: x in SideOf(b, d).levels <==>
                var last := FanOuts.LastRaw(StreamWrites(events, f, d), x.price);
                last.Some? && last.value.volume != 0.0 && x == Stored(last.value)
    {
      var ws := StreamWrites(events, f, d);
      FanOuts.RoomyApply(d, BOOK_DEPTH, EMPTY_SIDE, ws, FanOuts.RawPrices(ws));
    }
  }

  /** There is room in the stream's book for the next update. */
  lemma FittingIsRoomy(b: Book, events: seq<Event>, e: Event)
    requires e.BookUpdate? && IsStreamBook(b, events, e) && StreamFits(events + [e], e)
    ensures Roomy(b, e)
  {
    forall d
      ensures |FanOuts.Prices(SideOf(b, d).levels) + FanOuts.RawPrices(WritesOf(e, d))| <= BOOK_DEPTH
    {
      SideRoomy(b, events, e, d);
    }
    assert SideOf(b, Bid) == b.bids && SideOf(b, Ask) == b.asks;
    assert WritesOf(e, Bid) == e.bids && WritesOf(e, Ask) == e.asks;
  }

  lemma {:induction false} LastRawIn(rs: seq<RawLevel>, p: real)
    ensures FanOuts.LastRaw(rs, p).Some? ==> FanOuts.LastRaw(rs, p).value in rs && FanOuts.LastRaw(rs, p).value.price == p
  {
    if rs != [] {
      LastRawIn(rs[..|rs| - 1], p);
    }
  }

  lemma SideRoomy(b: Book, events: seq<Event>, e: Event, d: Direction)
    requires e.BookUpdate? && IsStreamBook(b, events, e) && StreamFits(events + [e], e)
    ensures |FanOuts.Prices(SideOf(b, d).levels) + FanOuts.RawPrices(WritesOf(e, d))| <= BOOK_DEPTH
  {
    var ws, more := StreamWrites(events, e, d), WritesOf(e, d);
    WritesNext(events, e, e, d);
    forall p | p in FanOuts.Prices(SideOf(b, d).levels) + FanOuts.RawPrices(more)
      ensures p in FanOuts.RawPrices(ws + more)
    {
      if p in FanOuts.RawPrices(more) {
        var r :| r in more && r.price == p;
        assert r in ws + more;
      } else {
        var x :| x in SideOf(b, d).levels && x.price == p;
        LastRawIn(ws, p);
        assert FanOuts.LastRaw(ws, p).value in ws + more;
      }
    }
    Smaller(FanOuts.Prices(SideOf(b, d).levels) + FanOuts.RawPrices(more), FanOuts.RawPrices(ws + more));
  }

  lemma NextStreamBook(b: Book, events: seq<Event>, e: Event)
    requires e.BookUpdate? && IsStreamBook(b, events, e) && StreamFits(events + [e], e)
    ensures IsStreamBook(Updated(b, e), events + [e], e)
  {
    var after := Updated(b, e);
    forall d
      ensures SideOf(after, d) == ApplyAll(d, BOOK_DEPTH, EMPTY_SIDE, StreamWrites(events + [e], e, d))
    {
      WritesNext(events, e, e, d);
      ApplyAllConcat(d, BOOK_DEPTH, EMPTY_SIDE, StreamWrites(events, e, d), WritesOf(e, d));
    }
    FittingBook(after, events + [e], e);
  }

  lemma {:induction false} FanOutOther(books: seq<Book>, e: Event, n: nat, f: Event)
    requires !(e.BookUpdate? && f.exchange == e.exchange && f.symbol == e.symbol)
    ensures BookOf(FanOut(books, e, n).0, f) == BookOf(books, f)
  {
    if n > 0 {
      FanOutOther(books, e, n - 1, f);
      if e.BookUpdate? {
        OtherStream(FanOut(books, e, n - 1).0, e, f);
      }
    }
  }

  /** A call of listener `j` with the event `e`, with a book exactly for book updates. */
  predicate CallOf(call: Delivery, j: nat, e: Event)
  {
    call.listener == j && call.event == e && (call.shown.Some? <==> e.BookUpdate?)
  }

  /** One call of each of the first `n` listeners. */
  ghost predicate CallsOf(calls: seq<Delivery>, n: nat, e: Event)
  {
    |calls| == n && forall j :: 0 <= j < n ==> CallOf(calls[j], j, e)
  }

  lemma ServeCalls(books: seq<Book>, e: Event, j: nat)
    ensures CallOf(Serve(books, e, j).1, j, e)
  {
  }

  lemma OneMoreCall(calls: seq<Delivery>, call: Delivery, n: nat, e: Event)
    requires CallsOf(calls, n, e) && CallOf(call, n, e)
    ensures CallsOf(calls + [call], n + 1, e)
  {
  }

  lemma {:induction false} FanOutCalls(books: seq<Book>, e: Event, n: nat)
    ensures CallsOf(FanOut(books, e, n).1, n, e)
  {
    if n > 0 {
      FanOutCalls(books, e, n - 1);
      var (books', calls) := FanOut(books, e, n - 1);
      ServeCalls(books', e, n - 1);
      OneMoreCall(calls, Serve(books', e, n - 1).1, n - 1, e);
    }
  }

  /** After any events with room, the book kept for a stream is that of its updates, each once. */
  lemma {:induction false} KeptBook(events: seq<Event>, n: nat, f: Event)
    requires n > 0 && f.BookUpdate? && StreamFits(events, f)
    ensures IsStreamBook(BookOf(Deliver([], events, n).0, f), events, f)
  {
    var b := BookOf(Deliver([], events, n).0, f);
    if events == [] {
      FittingBook(b, events, f);
    } else {
      var front, e := events[..|events| - 1], events[|events| - 1];
      assert events == front + [e];
      FitsBefore(front, e, f);
      KeptBook(front, n, f);
      KeptNext(front, e, n, f);
    }
  }

  lemma KeptNext(front: seq<Event>, e: Event, n: nat, f: Event)
    requires n > 0 && f.BookUpdate? && StreamFits(front + [e], f)
    requires IsStreamBook(BookOf(Deliver([], front, n).0, f), front, f)
    ensures IsStreamBook(BookOf(FanOut(Deliver([], front, n).0, e, n).0, f), front + [e], f)
  {
    var books := Deliver([], front, n).0;
    if SameStream(e, f) {
      SameBook(books, e, f);
      SameWrites(front, e, f);
      SameWrites(front + [e], e, f);
      FittingIsRoomy(BookOf(books, e), front, e);
      FanOutIdempotent(books, e, n);
      UpdateFinds(books, e);
      NextStreamBook(BookOf(books, e), front, e);
      SameBook(UpdateBooks(books, e), e, f);
    } else {
      FanOutOther(books, e, n, f);
      assert forall d :: StreamWrites(front + [e], f, d) == StreamWrites(front, f, d) by {
        forall d ensures StreamWrites(front + [e], f, d) == StreamWrites(front, f, d) { WritesNext(front, e, f, d); }
      }
    }
  }

  lemma {:induction false} SameFind(books: seq<Book>, e: Event, f: Event)
    requires SameStream(e, f)
    ensures FindBook(books, e) == FindBook(books, f)
  {
    if books != [] {
      SameFind(books[1..], e, f);
    }
  }

  lemma SameBook(books: seq<Book>, e: Event, f: Event)
    requires SameStream(e, f)
    ensures BookOf(books, e) == BookOf(books, f)
  {
    SameFind(books, e, f);
  }

  lemma {:induction false} SameWrites(events: seq<Event>, e: Event, f: Event)
    requires SameStream(e, f)
    ensures forall d :: StreamWrites(events, e, d) == StreamWrites(events, f, d)
  {
    if events != [] {
      SameWrites(events[..|events| - 1], e, f);
    }
  }

  /** What delivering one more event adds, after any replay with room and for any number of
      listeners: one call for each of them, in order; with a book update, each is shown the book of
      all updates of the stream so far, each of them applied once. */
  lemma DeliveryShows(events: seq<Event>, e: Event, n: nat)
    requires e.BookUpdate? ==> StreamFits(events + [e], e)
    ensures var calls, calls' := Deliver([], events, n).1, Deliver([], events + [e], n).1;
            && |calls'| == |calls| + n && calls'[..|calls|] == calls
            && var more := calls'[|calls|..];
               forall j :: 0 <= j < n ==>
                 && CallOf(more[j], j, e)
                 && (e.BookUpdate? ==> IsStreamBook(more[j].shown.value, events + [e], e))
  {
    assert (events + [e])[..|events|] == events;
    var (books, calls) := Deliver([], events, n);
    var more := FanOut(books, e, n).1;
    assert Deliver([], events + [e], n).1 == calls + more && (calls + more)[|calls|..] == more;
    FanOutCalls(books, e, n);
    if n > 0 && e.BookUpdate? {
      FitsBefore(events, e, e);
      KeptBook(events, n, e);
      FittingIsRoomy(BookOf(books, e), events, e);
      FanOutIdempotent(books, e, n);
      NextStreamBook(BookOf(books, e), events, e);
      forall j | 0 <= j < n
        ensures more[j].shown == Some(Updated(BookOf(books, e), e))
      {
        assert more[j] in more;
      }
    }
  }
}
