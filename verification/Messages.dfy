/** What each client is told about a request, said of the callbacks' ground facts: who traded how much
    and what rests. */
module Messages {
  import opened Types
  import opened Matching
  import opened BookModel
  import opened PriceTime
  import opened IdIndex
  import opened Ranking
  import opened Fairness
  import opened Ledger
  import opened Requests
  import opened Submissions
  import opened ClientReplica

  /** All messages that callbacks send to one client, in order. */
  function Sent(client: u32, events: seq<Event>): seq<Message> {
    if events == [] then [] else MessagesTo(client, events[0]) + Sent(client, events[1..])
  }

  /** A client that hears callbacks receives these messages. */
  lemma {:induction false} HearsSent(client: u32, c: Client, events: seq<Event>)
    ensures Hear(client, c, events) == ReceiveAll(c, Sent(client, events))
    decreases |events|
  {
    if events != [] {
      HearsSent(client, ReceiveAll(c, MessagesTo(client, events[0])), events[1..]);
      ReceiveConcat(c, MessagesTo(client, events[0]), Sent(client, events[1..]));
    }
  }

  lemma {:induction false} SentConcat(client: u32, a: seq<Event>, b: seq<Event>)
    ensures Sent(client, a + b) == Sent(client, a) + Sent(client, b)
  {
    if a == [] {
      assert a + b == b;
    } else {
      assert (a + b)[1..] == a[1..] + b;
      SentConcat(client, a[1..], b);
    }
  }

  /** The fills of one order among messages. */
  function FillsOf(ms: seq<Message>, id: u32): seq<Message> {
    if ms == [] then []
    else (if ms[0].PartialFill? && ms[0].id == id then [ms[0]] else []) + FillsOf(ms[1..], id)
  }

  lemma {:induction false} FillsOfConcat(a: seq<Message>, b: seq<Message>, id: u32)
    ensures FillsOf(a + b, id) == FillsOf(a, id) + FillsOf(b, id)
  {
    if a == [] {
      assert a + b == b;
    } else {
      assert (a + b)[1..] == a[1..] + b;
      FillsOfConcat(a[1..], b, id);
    }
  }

  // ----- The taker's fills -----

  /** Trades of the order `id` of this client, with makers that are other orders. */
  ghost predicate TradesFor(events: seq<Event>, client: u32, id: u32) {
    forall i :: 0 <= i < |events| && events[i].Trade? ==>
      events[i].takerClient == client && events[i].takerId == id && events[i].maker.orderId != id
  }

  function FillMessages(trades: seq<Event>, id: u32): seq<Message>
    requires forall i :: 0 <= i < |trades| ==> trades[i].Trade?
  {
    if trades == [] then []
    else
      var t := trades[0];
      [PartialFill(id, Wrap(t.takerTotal - t.takerCumulative), t.takerCumulative)] + FillMessages(trades[1..], id)
  }

  lemma OneFill(client: u32, e: Event, k: u32, id: u32)
    requires e.Trade? ==> e.takerClient == client && e.takerId == id && e.maker.orderId != id
    ensures FillsOf(MessagesTo(k, e), id) ==
            if e.Trade? && k == client
            then [PartialFill(id, Wrap(e.takerTotal - e.takerCumulative), e.takerCumulative)] else []
  {
    if e.Trade? {
      var o := e.maker;
      var toMaker := if o.clientId == k then [PartialFill(o.orderId, o.remaining, o.cumulative)] else [];
      var toTaker := MessagesTo(k, e)[|toMaker|..];
      assert MessagesTo(k, e) == toMaker + toTaker;
      FillsOfConcat(toMaker, toTaker, id);
    }
  }

  lemma {:induction false} FillsAreTrades(events: seq<Event>, client: u32, k: u32, id: u32)
    requires TradesFor(events, client, id)
    ensures forall i :: 0 <= i < |OnlyTrades(events)| ==> OnlyTrades(events)[i].Trade?
    ensures FillsOf(Sent(k, events), id) == if k == client then FillMessages(OnlyTrades(events), id) else []
  {
    hide MessagesTo;
    AllTrades(events);
    if events != [] {
      FillsAreTrades(events[1..], client, k, id);
      OneFill(client, events[0], k, id);
      FillsOfConcat(MessagesTo(k, events[0]), Sent(k, events[1..]), id);
      var tail := OnlyTrades(events[1..]);
      assert ([events[0]] + tail)[1..] == tail && [] + tail == tail;
    }
  }

  /** Each trade carries the running total of the taker. */
  lemma {:induction false} RunningTotal(fills: seq<Fill>, taker: Taker, left: nat, i: nat)
    requires SumFills(fills) <= left <= taker.total && FillsFit(fills) && i < |fills|
    ensures var ts := TradesOf(fills, taker, left);
            && |ts| == |fills| && ts[i].Trade?
            && ts[i].takerTotal == taker.total
            && ts[i].takerCumulative <= taker.total
            && ts[i].takerCumulative == taker.total - left + TradedVolume(ts[..i + 1])
  {
    hide SumFills;
    TradesOfFirst(fills, taker, left);
    var ts := TradesOf(fills, taker, left);
    var rest := TradesOf(fills[1..], taker, left - fills[0].quantity);
    assert ts == [ts[0]] + rest && ts[1..] == rest;
    assert ts[..i + 1][0] == ts[0] && ts[..i + 1][1..] == rest[..i];
    if i > 0 {
      RunningTotal(fills[1..], taker, left - fills[0].quantity, i - 1);
      assert rest[..i - 1 + 1] == rest[..i];
    }
  }

  lemma TradesOfFirst(fills: seq<Fill>, taker: Taker, left: nat)
    requires SumFills(fills) <= left <= taker.total && FillsFit(fills) && fills != []
    ensures fills[0].quantity <= left && FillsFit(fills[1..]) && SumFills(fills[1..]) <= left - fills[0].quantity
    ensures var ts, rest := TradesOf(fills, taker, left), TradesOf(fills[1..], taker, left - fills[0].quantity);
            && |ts| == |fills| && ts[0].Trade? && ts == [ts[0]] + rest
            && ts[0].takerTotal == taker.total && ts[0].quantity == fills[0].quantity
            && ts[0].takerCumulative == taker.total - left + fills[0].quantity
  {
    TradesOfShape(fills, taker, left);
  }

  /** Makers are older than the taker. */
  lemma {:induction false} MakersOlder(s: Side, t: Side, ids: map<u32, nat>, n: nat, limit: int, taker: Taker, qty: nat)
    requires SideOk(s) && qty <= taker.total && SideIndexed(s, ids, n) && SideIndexed(t, ids, n) && t.isBid != s.isBid
    ensures AllOlder(MatchSide(s, ids, limit, taker, qty).fills, n)
    decreases qty
  {
    hide QueuesOk, HomeOk, FreeOk, MatchOne, SideIndexed;
    if CanMatch(s, limit, qty) {
      var m := MatchOne(s, ids, taker, qty);
      MatchOneTrades(s, ids, taker, qty);
      MatchOneIndexed(s, t, ids, n, taker, qty);
      HeadOlder(s, ids, n);
      MakersOlder(m.side, t, m.ids, n, limit, taker, m.left);
    }
  }

  ghost predicate AllOlder(fills: seq<Fill>, n: nat) {
    forall i :: 0 <= i < |fills| ==> fills[i].maker.orderId < n
  }

  lemma HeadOlder(s: Side, ids: map<u32, nat>, n: nat)
    requires SideIndexed(s, ids, n) && s.best < |s.queues| && s.queues[s.best] != []
    ensures s.queues[s.best][0].orderId < n
  {
    assert QueueIndexed(s.isBid, ids, n, s.queues[s.best]);
  }

  /** The taker hears of each of its trades once, in order: of the i-th with the sum of the first i + 1
      traded quantities as cumulative and the rest of its order as leaves, so after the last one with
      what rests or is dropped. Nobody else hears of that order's fills. */
  ghost predicate TakerTold(c: Command, id: u32, events: seq<Event>)
    requires c.Submit?
  {
    var trades, fills := OnlyTrades(events), FillsOf(Sent(c.client, events), id);
    && |fills| == |trades|
    && (forall i :: 0 <= i < |fills| ==>
          && fills[i].PartialFill? && fills[i].id == id
          && fills[i].cumulative == TradedVolume(trades[..i + 1])
          && fills[i].leaves == c.quantity - TradedVolume(trades[..i + 1]))
    && (fills != [] ==> fills[|fills| - 1].leaves == c.quantity - TradedVolume(trades))
    && (forall k: u32 :: k != c.client ==> FillsOf(Sent(k, events), id) == [])
  }

  /** On every run of fewer than 2^32 accepted submissions. */
  lemma TakerFills(cs: seq<Command>, c: Command)
    requires Accepted(c) && Run(cs).accepted < U32
    ensures TakerTold(c, Wrap(Run(cs).accepted), Apply(Run(cs), c).events)
  {
    hide BookOk, MatchSide, Apply, Run, SideIndexed, OnlyTrades, TradedVolume, FillsOf, Sent, FillMessages, TradesOf,
         AllOlder;
    var b := Run(cs);
    BookSides(b);
    RunIndexed(cs);
    var s, t, limit := SideOf(b, !c.isBid), SideOf(b, c.isBid), RankOf(!c.isBid, c.price);
    var m := MatchIncoming(b, c.price, c.quantity, c.isBid, c.client);
    SubmitTrades(b, c);
    TradesAreFills(s, b.ids, limit, TakerOf(b, c), c.quantity);
    MakersOlder(s, t, b.ids, b.accepted, limit, TakerOf(b, c), c.quantity);
    TradesTold(m.fills, TakerOf(b, c), c, b.accepted, Apply(b, c).events);
  }

  lemma TradesTold(fills: seq<Fill>, taker: Taker, c: Command, id: u32, events: seq<Event>)
    requires c.Submit? && taker == Taker(c.client, id, c.quantity) && SumFills(fills) <= c.quantity && FillsFit(fills)
    requires AllOlder(fills, id) && OnlyTrades(events) == TradesOf(fills, taker, c.quantity)
    ensures TakerTold(c, id, events)
  {
    hide OnlyTrades, TradedVolume, FillsOf, Sent, TradesOf, FillMessages;
    var trades := OnlyTrades(events);
    TradesOfShape(fills, taker, c.quantity);
    TradesKnown(events, c.client, id);
    forall k: u32 ensures FillsOf(Sent(k, events), id) == if k == c.client then FillMessages(trades, id) else [] {
      FillsAreTrades(events, c.client, k, id);
    }
    FillMessagesAt(trades, id);
    forall i | 0 <= i < |trades|
      ensures trades[i].takerTotal == c.quantity && trades[i].takerCumulative == TradedVolume(trades[..i + 1])
      ensures Wrap(c.quantity - trades[i].takerCumulative) == c.quantity - trades[i].takerCumulative
    {
      RunningTotal(fills, taker, c.quantity, i);
    }
    assert trades[..|trades|] == trades;
  }

  /** What holds of the trades holds of the trades among the callbacks. */
  lemma {:induction false} TradesKnown(events: seq<Event>, client: u32, id: u32)
    requires forall i :: 0 <= i < |OnlyTrades(events)| ==>
               var t := OnlyTrades(events)[i];
               t.Trade? && t.takerClient == client && t.takerId == id && t.maker.orderId != id
    ensures TradesFor(events, client, id)
  {
    if events != [] {
      var tail := OnlyTrades(events[1..]);
      assert OnlyTrades(events) == (if events[0].Trade? then [events[0]] else []) + tail;
      forall i | 0 <= i < |tail| ensures tail[i] == OnlyTrades(events)[if events[0].Trade? then i + 1 else i] {
      }
      TradesKnown(events[1..], client, id);
      assert events[0].Trade? ==> OnlyTrades(events)[0] == events[0];
      forall i | 1 <= i < |events| ensures events[i] == events[1..][i - 1] {
      }
    }
  }

  lemma {:induction false} FillMessagesAt(trades: seq<Event>, id: u32)
    requires forall i :: 0 <= i < |trades| ==> trades[i].Trade?
    ensures var ms := FillMessages(trades, id);
            && |ms| == |trades|
            && forall i :: 0 <= i < |ms| ==>
                 var t := trades[i];
                 ms[i] == PartialFill(id, Wrap(t.takerTotal - t.takerCumulative), t.takerCumulative)
  {
    if trades != [] {
      FillMessagesAt(trades[1..], id);
    }
  }

  // ----- The makers' fills -----

  /** The messages about the trades of one maker's order. */
  function MakerMessages(trades: seq<Event>, k: u32, id: u32): seq<Message>
    requires forall i :: 0 <= i < |trades| ==> trades[i].Trade?
  {
    if trades == [] then []
    else
      var o := trades[0].maker;
      (if o.clientId == k && o.orderId == id then [PartialFill(id, o.remaining, o.cumulative)] else [])
      + MakerMessages(trades[1..], k, id)
  }

  lemma OneMakerFill(e: Event, k: u32, id: u32)
    requires e.Trade? ==> e.takerId != id
    ensures FillsOf(MessagesTo(k, e), id) ==
            if e.Trade? && e.maker.clientId == k && e.maker.orderId == id
            then [PartialFill(id, e.maker.remaining, e.maker.cumulative)] else []
  {
    if e.Trade? {
      var o := e.maker;
      var toMaker := if o.clientId == k then [PartialFill(o.orderId, o.remaining, o.cumulative)] else [];
      var toTaker := MessagesTo(k, e)[|toMaker|..];
      assert MessagesTo(k, e) == toMaker + toTaker;
      FillsOfConcat(toMaker, toTaker, id);
    }
  }

  lemma {:induction false} MakerFillsAreTrades(events: seq<Event>, taker: u32, k: u32, id: u32)
    requires taker != id && forall i :: 0 <= i < |events| && events[i].Trade? ==> events[i].takerId == taker
    ensures forall i :: 0 <= i < |OnlyTrades(events)| ==> OnlyTrades(events)[i].Trade?
    ensures FillsOf(Sent(k, events), id) == MakerMessages(OnlyTrades(events), k, id)
  {
    hide MessagesTo;
    AllTrades(events);
    if events != [] {
      MakerFillsAreTrades(events[1..], taker, k, id);
      OneMakerFill(events[0], k, id);
      FillsOfConcat(MessagesTo(k, events[0]), Sent(k, events[1..]), id);
      var tail := OnlyTrades(events[1..]);
      assert ([events[0]] + tail)[1..] == tail && [] + tail == tail;
    }
  }

  /** Only the i-th trade is about this order. */
  lemma {:induction false} OneMakerMessage(trades: seq<Event>, i: nat, k: u32, id: u32)
    requires i < |trades| && forall j :: 0 <= j < |trades| ==> trades[j].Trade?
    requires forall j :: 0 <= j < |trades| ==> (trades[j].maker.orderId == id <==> j == i)
    requires trades[i].maker.clientId == k
    ensures MakerMessages(trades, k, id) == [PartialFill(id, trades[i].maker.remaining, trades[i].maker.cumulative)]
  {
    if i == 0 {
      NoMakerMessage(trades[1..], k, id);
    } else {
      assert trades[0].maker.orderId != id;
      OneMakerMessage(trades[1..], i - 1, k, id);
    }
  }

  lemma {:induction false} NoMakerMessage(trades: seq<Event>, k: u32, id: u32)
    requires forall j :: 0 <= j < |trades| ==> trades[j].Trade? && trades[j].maker.orderId != id
    ensures MakerMessages(trades, k, id) == []
  {
    if trades != [] {
      assert trades[0].maker.orderId != id;
      NoMakerMessage(trades[1..], k, id);
    }
  }

  /** The level and place of the maker of the i-th fill. */
  lemma FillPlace(s: Side, ids: map<u32, nat>, limit: int, taker: Taker, qty: nat, i: nat) returns (r: nat, x: nat)
    requires SideOk(s) && qty <= taker.total && i < |MatchSide(s, ids, limit, taker, qty).fills|
    ensures |s.queues| == NUM_LEVELS && r < NUM_LEVELS && x < |s.queues[r]|
    ensures MatchSide(s, ids, limit, taker, qty).fills[i].maker == s.queues[r][x]
    ensures i == |Exposed(Offered(s), 0, r - 1)| + x
  {
    hide QueuesOk, HomeOk, FreeOk, MatchSide, Exposed, FillQueue;
    MatchIsGreedy(s, ids, limit, taker, qty);
    var os := Exposed(Offered(s), 0, limit);
    FillsWithin(os, qty);
    FillIsGreedy(os, qty, i);
    r, x := OfferedPlace(s, limit, i);
  }

  /** Fills are of resting orders, each of another one. */
  lemma FillOfResting(b: Book, s: Side, limit: int, taker: Taker, qty: nat, i: nat) returns (k: nat)
    requires BookOk(b) && Indexed(b) && s == SideOf(b, s.isBid) && qty <= taker.total
    requires i < |MatchSide(s, b.ids, limit, taker, qty).fills|
    ensures k < |Resting(s)| && MatchSide(s, b.ids, limit, taker, qty).fills[i].maker == Resting(s)[k]
    ensures OnlyFill(MatchSide(s, b.ids, limit, taker, qty).fills, i)
  {
    hide BookOk, SideOk, MatchSide, Exposed, Indexed, Lookup;
    BookSides(b);
    var fills := MatchSide(s, b.ids, limit, taker, qty).fills;
    var r: int, x: int := FillPlace(s, b.ids, limit, taker, qty, i);
    AroundItself(s.queues, r);
    k := |Exposed(s.queues, 0, r - 1)| + x;
    LookupPlace(b, s.isBid, r, x);
    forall j | 0 <= j < |fills| && j != i ensures fills[j].maker.orderId != fills[i].maker.orderId {
      var q, y := FillPlace(s, b.ids, limit, taker, qty, j);
      LookupPlace(b, s.isBid, q, y);
    }
  }

  ghost predicate OnlyFill(fills: seq<Fill>, i: nat)
    requires i < |fills|
  {
    forall j :: 0 <= j < |fills| && j != i ==> fills[j].maker.orderId != fills[i].maker.orderId
  }

  lemma {:induction false} FillsWithin(os: seq<Order>, qty: nat)
    requires AllSound(os)
    ensures |FillQueue(os, qty).fills| <= |os|
  {
    if os != [] && qty != 0 && os[0].remaining <= qty {
      assert Sound(os[0]);
      FillsWithin(os[1..], qty - os[0].remaining);
    }
  }

  /** The level and place of the i-th offered order. */
  lemma OfferedPlace(s: Side, limit: int, i: nat) returns (r: nat, x: nat)
    requires |s.queues| == NUM_LEVELS && i < |Exposed(Offered(s), 0, limit)|
    ensures r < NUM_LEVELS && x < |s.queues[r]| && s.queues[r][x] == Exposed(Offered(s), 0, limit)[i]
    ensures i == |Exposed(Offered(s), 0, r - 1)| + x
  {
    hide Exposed;
    var qs := Offered(s);
    ExposedWithin(qs, 0, limit);
    r, x := Locate(qs, 0, i);
  }

  lemma {:induction false} ExposedWithin(qs: seq<seq<Order>>, a: nat, limit: int)
    ensures Exposed(qs, a, limit) <= Exposed(qs, a, |qs| - 1)
    decreases |qs| - a
  {
    if a < |qs| && a <= limit {
      ExposedWithin(qs, a + 1, limit);
    }
  }

  /** The maker of a trade is the k-th order that rested before, and its owner hears of it once in
      this submission, with what is left of it and what it has traded in all. */
  ghost predicate MakerTold(b: Book, c: Command, trade: Event, events: seq<Event>, k: nat)
    requires c.Submit? && trade.Trade?
  {
    && k < |Resting(SideOf(b, !c.isBid))|
    && var o := Resting(SideOf(b, !c.isBid))[k];
    && trade.quantity <= o.remaining && o.cumulative + trade.quantity <= o.quantity
    && trade.maker == o.(remaining := o.remaining - trade.quantity, cumulative := o.cumulative + trade.quantity)
    && FillsOf(Sent(o.clientId, events), o.orderId) ==
       [PartialFill(o.orderId, o.remaining - trade.quantity, o.cumulative + trade.quantity)]
  }

  /** On every run of fewer than 2^32 accepted submissions. */
  lemma MakerFills(cs: seq<Command>, c: Command, i: nat) returns (k: nat)
    requires Accepted(c) && Run(cs).accepted < U32 && i < |OnlyTrades(Apply(Run(cs), c).events)|
    ensures OnlyTrades(Apply(Run(cs), c).events)[i].Trade?
    ensures MakerTold(Run(cs), c, OnlyTrades(Apply(Run(cs), c).events)[i], Apply(Run(cs), c).events, k)
  {
    hide BookOk, MatchSide, Apply, Run, SideIndexed, OnlyTrades, FillsOf, Sent, TradesOf, Resting, MakerMessages;
    var b, events := Run(cs), Apply(Run(cs), c).events;
    BookSides(b);
    RunIndexed(cs);
    var s, t, limit := SideOf(b, !c.isBid), SideOf(b, c.isBid), RankOf(!c.isBid, c.price);
    var m := MatchIncoming(b, c.price, c.quantity, c.isBid, c.client);
    SubmitTrades(b, c);
    TradesAreFills(s, b.ids, limit, TakerOf(b, c), c.quantity);
    TradesOfShape(m.fills, TakerOf(b, c), c.quantity);
    MakersOlder(s, t, b.ids, b.accepted, limit, TakerOf(b, c), c.quantity);
    k := FillOfResting(b, s, limit, TakerOf(b, c), c.quantity, i);
    MakerHears(events, m.fills, b.accepted, i);
  }

  lemma MakerHears(events: seq<Event>, fills: seq<Fill>, taker: u32, i: nat)
    requires |OnlyTrades(events)| == |fills| && i < |fills| && AllOlder(fills, taker) && OnlyFill(fills, i)
    requires forall j :: 0 <= j < |fills| ==>
               var t := OnlyTrades(events)[j];
               && t.Trade? && t.takerId == taker
               && Sound(fills[j].maker) && fills[j].quantity <= fills[j].maker.remaining
               && t.maker == Traded(fills[j].maker, fills[j].quantity)
    ensures var o := OnlyTrades(events)[i].maker;
            FillsOf(Sent(o.clientId, events), o.orderId) == [PartialFill(o.orderId, o.remaining, o.cumulative)]
  {
    hide OnlyTrades, FillsOf, Sent, MakerMessages;
    var o := OnlyTrades(events)[i].maker;
    OlderIds(fills, taker, i);
    TakersKnown(events, taker);
    MakerFillsAreTrades(events, taker, o.clientId, o.orderId);
    OneMakerMessage(OnlyTrades(events), i, o.clientId, o.orderId);
  }

  lemma OlderIds(fills: seq<Fill>, n: nat, i: nat)
    requires AllOlder(fills, n) && i < |fills|
    ensures fills[i].maker.orderId < n
  {
  }

  lemma {:induction false} TakersKnown(events: seq<Event>, taker: u32)
    requires forall i :: 0 <= i < |OnlyTrades(events)| ==>
               OnlyTrades(events)[i].Trade? && OnlyTrades(events)[i].takerId == taker
    ensures forall i :: 0 <= i < |events| && events[i].Trade? ==> events[i].takerId == taker
  {
    if events != [] {
      var tail := OnlyTrades(events[1..]);
      assert OnlyTrades(events) == (if events[0].Trade? then [events[0]] else []) + tail;
      forall i | 0 <= i < |tail| ensures tail[i] == OnlyTrades(events)[if events[0].Trade? then i + 1 else i] {
      }
      TakersKnown(events[1..], taker);
      assert events[0].Trade? ==> OnlyTrades(events)[0] == events[0];
      forall i | 1 <= i < |events| ensures events[i] == events[1..][i - 1] {
      }
    }
  }

  // ----- Other replies -----

  /** A cancellation or an amendment is answered to the caller only. */
  lemma OthersHearNothing(cs: seq<Command>, c: Command, k: u32)
    requires !c.Submit? && k != c.client
    ensures Sent(k, Apply(Run(cs), c).events) == []
  {
    hide BookOk, Run;
    OnlyCaller(Run(cs), c, k);
  }

  lemma OnlyCaller(b: Book, c: Command, k: u32)
    requires BookOk(b) && !c.Submit? && k != c.client
    ensures Sent(k, Apply(b, c).events) == []
  {
    hide SideOk, IdsSide, Lookup, CancelledSide, ReducedSide, Total, Sent;
    BookSides(b);
    var events := Apply(b, c).events;
    if |events| == 1 {
      SentOne(k, events[0]);
    } else {
      SentTwo(k, events[0], events[1]);
    }
  }

  lemma SentOne(k: u32, e: Event)
    ensures Sent(k, [e]) == MessagesTo(k, e)
  {
    assert [e][1..] == [];
  }

  lemma SentTwo(k: u32, e: Event, f: Event)
    ensures Sent(k, [e, f]) == MessagesTo(k, e) + MessagesTo(k, f)
  {
    assert [e, f] == [e] + [f];
    SentConcat(k, [e], [f]);
    SentOne(k, e);
    SentOne(k, f);
  }

  /** The owner of a resting order is told that it was cancelled; a caller who does not own it is sent
      no confirmation. */
  lemma CancelReply(cs: seq<Command>, c: Command, isBid: bool, k: nat)
    requires Run(cs).accepted <= U32 && c.Cancel? && RestsAt(Run(cs), isBid, k, c.id)
    ensures Sent(c.client, Apply(Run(cs), c).events) ==
            if Resting(SideOf(Run(cs), isBid))[k].clientId == c.client then [ConfirmCancelled(c.id)] else []
  {
    hide BookOk, Run, Apply, Resting, VolumeAt, Sent;
    CancelMeaning(cs, c, isBid, k);
    var events := Apply(Run(cs), c).events;
    if |events| == 1 {
      SentOne(c.client, events[0]);
    } else {
      SentTwo(c.client, events[0], events[1]);
    }
  }

  /** The owner of a resting order is told its new quantity and what remains of it. */
  lemma AmendReply(cs: seq<Command>, c: Command, isBid: bool, k: nat)
    requires Run(cs).accepted <= U32 && c.Amend? && RestsAt(Run(cs), isBid, k, c.id)
    ensures var o := Resting(SideOf(Run(cs), isBid))[k];
            Sent(c.client, Apply(Run(cs), c).events) ==
            if o.clientId == c.client && o.cumulative <= c.newQuantity <= o.quantity
            then [ConfirmAmended(c.id, c.newQuantity, c.newQuantity - o.cumulative)] else []
  {
    hide BookOk, Run, Apply, Resting, VolumeAt, Sent;
    AmendMeaning(cs, c, isBid, k);
    var events := Apply(Run(cs), c).events;
    if |events| == 1 {
      assert events == [events[0]];
      SentOne(c.client, events[0]);
    } else {
      assert events == [events[0], events[1]];
      SentTwo(c.client, events[0], events[1]);
    }
  }

  /** The last message to the owner of an order that rests confirms it with its own quantities. */
  lemma InsertReply(cs: seq<Command>, c: Command, k: nat)
    requires Accepted(c) && SubmitAnswer(Run(cs), c, k, Apply(Run(cs), c))
    ensures var b, events := Run(cs), Apply(Run(cs), c).events;
            var left := c.quantity - TradedVolume(OnlyTrades(events));
            0 < left && |Resting(SideOf(b, c.isBid))| < MAX_ORDERS ==>
              && Sent(c.client, events) != []
              && Sent(c.client, events)[|Sent(c.client, events)| - 1] ==
                 ConfirmInserted(Wrap(b.accepted), c.isBid, c.price, c.quantity, left)
  {
    hide BookOk, Run, Apply, Resting, VolumeAt, Sent, WithUpdates, OnlyTrades, TradedVolume;
    var b, out := Run(cs), Apply(Run(cs), c);
    var trades := OnlyTrades(out.events);
    var left := c.quantity - TradedVolume(trades);
    if 0 < left && |Resting(SideOf(b, c.isBid))| < MAX_ORDERS {
      var reports := WithUpdates(trades, !c.isBid, Resting(SideOf(out.book, !c.isBid)));
      var tail := out.events[|reports|..];
      assert out.events == reports + tail && tail == [tail[0], tail[1]];
      SentConcat(c.client, reports, tail);
      SentTwo(c.client, tail[0], tail[1]);
    }
  }
}
