/** The classes driven together: the book in place over whole runs, and the shadow book fed by it. */
module Replay {
  import opened Types
  import opened BookModel
  import opened MarketData
  import opened Links
  import opened OrderBooks
  import opened ShadowBook

  /** One request to the book in place. */
  method Perform(book: OrderBook, c: Command) returns (events: seq<Event>)
    requires book.Valid()
    modifies book.Repr()
    ensures book.Valid()
    ensures book.Model() == Apply(old(book.Model()), c).book && events == Apply(old(book.Model()), c).events
  {
    hide BookOk, SideOk, Represents, HandlesOk, SubmitOrder, CancelOrder, AmendOrder;
    match c
    case Submit(price, quantity, isBid, client, request) =>
      events := book.SubmitOrder(price, quantity, isBid, client, request);
    case Cancel(client, request, id) =>
      events := book.CancelOrder(client, request, id);
    case Amend(client, request, id, newQuantity) =>
      events := book.AmendOrder(client, request, id, newQuantity);
  }

  /** Further requests to the book in place. */
  method Continue(book: OrderBook, cs: seq<Command>) returns (events: seq<Event>)
    requires book.Valid()
    modifies book.Repr()
    ensures book.Valid() && BookOk(old(book.Model()))
    ensures book.Model() == After(old(book.Model()), cs) && events == Events(old(book.Model()), cs)
  {
    hide BookOk, Apply, SideOk, Represents, HandlesOk;
    events := [];
    ghost var b := book.Model();
    for i := 0 to |cs|
      invariant book.Valid() && BookOk(b) && BookOk(book.Model())
      invariant After(book.Model(), cs[i..]) == After(b, cs)
      invariant events + Events(book.Model(), cs[i..]) == Events(b, cs)
    {
      ghost var now := book.Model();
      var more := Perform(book, cs[i]);
      RunFirst(now, cs[i..]);
      assert cs[i..][1..] == cs[i + 1..];
      assert events + (more + Events(book.Model(), cs[i + 1..])) == (events + more) + Events(book.Model(), cs[i + 1..]);
      events := events + more;
    }
    RunNothing(book.Model());
    assert cs[|cs|..] == [];
  }

  lemma RunFirst(b: Book, cs: seq<Command>)
    requires BookOk(b) && cs != []
    ensures BookOk(Apply(b, cs[0]).book)
    ensures After(b, cs) == After(Apply(b, cs[0]).book, cs[1..])
    ensures Events(b, cs) == Apply(b, cs[0]).events + Events(Apply(b, cs[0]).book, cs[1..])
  {
    hide BookOk, Apply;
    ApplyOk(b, cs[0]);
  }

  lemma RunNothing(b: Book)
    requires BookOk(b)
    ensures After(b, []) == b && Events(b, []) == []
  {
  }

  /** The book in place follows the model over every run: state and callbacks. */
  method RunBook(cs: seq<Command>) returns (book: OrderBook, events: seq<Event>)
    ensures fresh(book.Repr()) && book.Valid()
    ensures book.Model() == Run(cs) && events == Events(Run([]), cs)
  {
    hide BookOk, Events, After, SideOk, Represents, HandlesOk, EmptySide;
    book := new OrderBook();
    events := Continue(book, cs);
    AfterIsRun([], cs);
    assert [] + cs == cs;
  }

  /** The quotes a snapshot message carries are those written, and padding. */
  lemma WrittenQuotes(prices: seq<int>, volumes: seq<u32>, qs: seq<Quote>)
    requires Written(prices, volumes, qs)
    ensures FromQuotes(NOTHING, Quotes(prices, volumes)).levels == FromQuotes(NOTHING, qs).levels
  {
    hide FromQuotes;
    var n := SNAPSHOT_DEPTH - |qs|;
    assert Quotes(prices, volumes) == qs + seq(n, _ => Quote(0, 0));
    PaddingIgnored(qs, n);
  }

  /** A shadow book that listens from the start holds the engine's map of non-zero levels. */
  method ListenFromStart(cs: seq<Command>) returns (bids: map<int, u32>, asks: map<int, u32>)
    ensures |Run(cs).bids.queues| == |Run(cs).asks.queues| == NUM_LEVELS
    ensures bids == LevelMap(Run(cs).bids) && asks == LevelMap(Run(cs).asks)
  {
    hide BookOk, Run, Events, LevelMap, SeeAll;
    FeedFromEmpty(cs, true);
    FeedFromEmpty(cs, false);
    var book, events := RunBook(cs);
    var shadow := new ShadowOrderBook();
    shadow.Feed(events, EmptyFeed(), EmptyFeed());
    bids, asks := shadow.bids, shadow.asks;
  }

  /** A new shadow book that has received the book's snapshot. */
  method TakeSnapshot(book: OrderBook) returns (shadow: ShadowOrderBook)
    requires book.Valid()
    ensures book.Valid() && book.Model() == old(book.Model()) && fresh(shadow)
    ensures SideOk(book.bids.model) && SideOk(book.asks.model)
    ensures shadow.bids == FromQuotes(NOTHING, Snapshot(book.bids.model)).levels
    ensures shadow.asks == FromQuotes(NOTHING, Snapshot(book.asks.model)).levels
  {
    hide BookOk, Snapshot, Written, FromQuotes, Represents, HandlesOk;
    var bidVolumes, bidPrices := new u32[SNAPSHOT_DEPTH], new int[SNAPSHOT_DEPTH];
    var askVolumes, askPrices := new u32[SNAPSHOT_DEPTH], new int[SNAPSHOT_DEPTH];
    book.BuildSnapshot(bidVolumes, bidPrices, askVolumes, askPrices);
    shadow := new ShadowOrderBook();
    shadow.OnOrderBookSnapshot(askPrices[..], askVolumes[..], bidPrices[..], bidVolumes[..]);
    WrittenQuotes(bidPrices[..], bidVolumes[..], Snapshot(book.bids.model));
    WrittenQuotes(askPrices[..], askVolumes[..], Snapshot(book.asks.model));
  }

  /** A shadow book that subscribes after cs receives a snapshot and the updates of ds: it holds
      exactly the engine's levels at the prices that were quoted or updated. */
  method Subscribe(cs: seq<Command>, ds: seq<Command>) returns (bids: map<int, u32>, asks: map<int, u32>)
    ensures SubscribedTo(cs, ds, true, bids)
    ensures SubscribedTo(cs, ds, false, asks)
  {
    hide BookOk, Run, Events, After, LevelMap, SeeAll, Snapshot, Touched, QuotedPrices, FromQuotes, SideOk,
         Represents, HandlesOk;
    FeedFromSnapshot(cs, ds, true);
    FeedFromSnapshot(cs, ds, false);
    var book, before := RunBook(cs);
    var shadow := TakeSnapshot(book);
    ghost var b, a := FromQuotes(NOTHING, Snapshot(Run(cs).bids)), FromQuotes(NOTHING, Snapshot(Run(cs).asks));
    var events := Continue(book, ds);
    shadow.Feed(events, b, a);
    bids, asks := shadow.bids, shadow.asks;
  }

  ghost predicate SubscribedTo(cs: seq<Command>, ds: seq<Command>, isBid: bool, levels: map<int, u32>) {
    && |SideOf(Run(cs), isBid).queues| == |SideOf(Run(cs + ds), isBid).queues| == NUM_LEVELS
    && var prices := QuotedPrices(Snapshot(SideOf(Run(cs), isBid))) + Touched(isBid, Events(Run(cs), ds));
       levels == Restricted(LevelMap(SideOf(Run(cs + ds), isBid)), prices)
  }
}
