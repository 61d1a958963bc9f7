/** First come, first served at every price, on every run: whatever the cached best price. */
module TimePriority {
  import opened Types
  import opened Matching
  import opened BookModel
  import opened BestPrice
  import opened IdIndex
  import opened Ranking
  import opened Fairness

  /** The fills at one price, in the order they happened. */
  function FillsAt(fills: seq<Fill>, price: int): seq<Fill> {
    if fills == [] then []
    else (if fills[0].maker.price == price then [fills[0]] else []) + FillsAt(fills[1..], price)
  }

  lemma FillsAtCons(f: Fill, fills: seq<Fill>, price: int)
    ensures FillsAt([f] + fills, price) == if f.maker.price == price then [f] + FillsAt(fills, price)
            else FillsAt(fills, price)
  {
  }

  lemma FillsAtNone(price: int)
    ensures FillsAt([], price) == []
  {
  }

  /** What one queue went through: it was filled from the front with what traded at its price. */
  ghost predicate Served(q: seq<Order>, fills: seq<Fill>, q': seq<Order>) {
    AllSound(q) && FillQueue(q, SumFills(fills)).fills == fills && FillQueue(q, SumFills(fills)).rest == q'
  }

  lemma ServedNothing(q: seq<Order>)
    requires AllSound(q)
    ensures Served(q, [], q)
  {
  }

  lemma ServedWhole(o: Order, q: seq<Order>, fills: seq<Fill>, q': seq<Order>)
    requires Sound(o) && Served(q, fills, q')
    ensures Served([o] + q, [Fill(o, o.remaining)] + fills, q')
  {
  }

  lemma ServedPart(o: Order, q: seq<Order>, t: u32)
    requires Sound(o) && AllSound(q) && 0 < t < o.remaining
    ensures Served([o] + q, [Fill(o, t)], [Traded(o, t)] + q)
  {
  }

  lemma LevelSound(s: Side, r: nat)
    requires SideOk(s) && r < NUM_LEVELS
    ensures AllSound(s.queues[r])
  {
  }

  lemma PricesDiffer(isBid: bool, r: nat, b: nat)
    requires r != b
    ensures PriceOf(isBid, r) != PriceOf(isBid, b)
  {
  }

  /** The head of the best queue trades, then the queue is served on. */
  lemma BestServed(s: Side, ids: map<u32, nat>, taker: Taker, qty: nat, fills: seq<Fill>, q': seq<Order>)
    requires SideOk(s) && s.best < NUM_LEVELS && 0 < qty <= taker.total
    requires var m := MatchOne(s, ids, taker, qty);
             && Served(m.side.queues[s.best], fills, q')
             && (m.left == 0 ==> fills == [] && q' == m.side.queues[s.best])
    ensures Served(s.queues[s.best], MatchOne(s, ids, taker, qty).fills + fills, q')
  {
    hide QueuesOk, HomeOk, FreeOk, MatchOne, Served;
    LevelSound(s, s.best);
    var q := s.queues[s.best];
    var o := q[0];
    assert Sound(o) && q == [o] + q[1..];
    if qty < o.remaining {
      MatchOnePart(s, ids, taker, qty);
      ServedPart(o, q[1..], qty);
      assert q[0 := Traded(o, qty)] == [Traded(o, qty)] + q[1..];
      assert [Fill(o, qty)] + fills == [Fill(o, qty)];
    } else {
      MatchOneWhole(s, ids, taker, qty);
      assert Without(q, 0) == q[1..];
      ServedWhole(o, q[1..], fills, q');
    }
  }

  lemma OthersWait(s: Side, ids: map<u32, nat>, taker: Taker, qty: nat, r: nat)
    requires SideOk(s) && s.best < NUM_LEVELS && 0 < qty <= taker.total && r < NUM_LEVELS && r != s.best
    ensures MatchOne(s, ids, taker, qty).side.queues[r] == s.queues[r]
  {
    hide QueuesOk, HomeOk, FreeOk, MatchOne;
    if qty < s.queues[s.best][0].remaining {
      MatchOnePart(s, ids, taker, qty);
    } else {
      MatchOneWhole(s, ids, taker, qty);
    }
  }

  /** Whatever the cached best price: matching fills every queue from its front, and what it takes
      from a queue is what traded at that price. */
  lemma {:induction false} LevelFifo(s: Side, ids: map<u32, nat>, limit: int, taker: Taker, qty: nat, r: nat)
    requires SideOk(s) && qty <= taker.total && r < NUM_LEVELS
    ensures var m := MatchSide(s, ids, limit, taker, qty);
            Served(s.queues[r], FillsAt(m.fills, PriceOf(s.isBid, r)), m.side.queues[r])
    decreases qty
  {
    hide QueuesOk, HomeOk, FreeOk, MatchOne, Served, FillsAt;
    var price := PriceOf(s.isBid, r);
    if CanMatch(s, limit, qty) {
      var m := MatchOne(s, ids, taker, qty);
      var n := MatchSide(m.side, m.ids, limit, taker, m.left);
      LevelFifo(m.side, m.ids, limit, taker, m.left, r);
      MatchOneTrades(s, ids, taker, qty);
      FillsAtCons(m.fills[0], n.fills, price);
      if r == s.best {
        FillsAtNone(price);
        BestServed(s, ids, taker, qty, FillsAt(n.fills, price), n.side.queues[r]);
      } else {
        PricesDiffer(s.isBid, r, s.best);
        OthersWait(s, ids, taker, qty, r);
      }
    } else {
      LevelSound(s, r);
      FillsAtNone(price);
      ServedNothing(s.queues[r]);
    }
  }

  // ----- Arrival order -----

  predicate Ascending(q: seq<Order>, least: int) {
    && (forall i :: 0 <= i < |q| ==> least <= q[i].orderId)
    && (forall i, j :: 0 <= i < j < |q| ==> q[i].orderId < q[j].orderId)
  }

  /** The makers come in ascending order, and no order left behind is older than one of them. */
  predicate InTurn(fills: seq<Fill>, rest: seq<Order>, least: int) {
    && (forall i :: 0 <= i < |fills| ==> least <= fills[i].maker.orderId)
    && (forall i, j :: 0 <= i < j < |fills| ==> fills[i].maker.orderId < fills[j].maker.orderId)
    && (forall i, j :: 0 <= i < |fills| && 0 <= j < |rest| ==> fills[i].maker.orderId <= rest[j].orderId)
    && (forall j :: 0 <= j < |rest| ==> least <= rest[j].orderId)
  }

  lemma {:induction false} FilledInTurn(q: seq<Order>, qty: nat, least: int)
    requires AllSound(q) && Ascending(q, least)
    ensures InTurn(FillQueue(q, qty).fills, FillQueue(q, qty).rest, least)
  {
    hide InTurn;
    if q != [] && qty != 0 {
      var o, tail := q[0], q[1..];
      assert Sound(o) && q == [o] + tail;
      FillCons(o, tail, qty);
      if o.remaining <= qty {
        var f := FillQueue(tail, qty - o.remaining);
        FilledInTurn(tail, qty - o.remaining, o.orderId + 1);
        InTurnCons(Fill(o, o.remaining), f.fills, f.rest, least);
      } else {
        InTurnLast(o, qty, tail, least);
      }
    } else {
      InTurnNone(q, least);
    }
  }

  lemma InTurnNone(q: seq<Order>, least: int)
    requires Ascending(q, least)
    ensures InTurn([], q, least)
  {
  }

  lemma InTurnLast(o: Order, t: u32, tail: seq<Order>, least: int)
    requires Sound(o) && t <= o.remaining && Ascending([o] + tail, least)
    ensures InTurn([Fill(o, t)], [Traded(o, t)] + tail, least)
  {
    assert forall j :: 0 <= j < |tail| ==> tail[j] == ([o] + tail)[j + 1];
    assert o == ([o] + tail)[0];
  }

  lemma InTurnCons(f: Fill, fills: seq<Fill>, rest: seq<Order>, least: int)
    requires least <= f.maker.orderId && InTurn(fills, rest, f.maker.orderId + 1)
    ensures InTurn([f] + fills, rest, least)
  {
  }

  lemma {:induction false} FillsAtHas(fills: seq<Fill>, i: nat)
    requires i < |fills|
    ensures fills[i] in FillsAt(fills, fills[i].maker.price)
  {
    if i > 0 {
      assert fills[1..][i - 1] == fills[i];
      FillsAtHas(fills[1..], i - 1);
    }
  }

  /** On every run of at most 2^32 accepted submissions, careful or not: when an order trades, no
      order that came earlier at the same side and price is left resting. */
  lemma NoQueueJumping(cs: seq<Command>, c: Command, i: nat, r: nat, k: nat)
    requires Run(cs).accepted <= U32 && Accepted(c) && r < NUM_LEVELS
    requires var trades := OnlyTrades(Apply(Run(cs), c).events);
             var left := SideOf(Apply(Run(cs), c).book, !c.isBid).queues;
             && i < |trades| && trades[i].Trade?
             && r < |left| && k < |left[r]| && left[r][k].price == trades[i].price
    ensures var trade := OnlyTrades(Apply(Run(cs), c).events)[i];
            trade.maker.orderId <= SideOf(Apply(Run(cs), c).book, !c.isBid).queues[r][k].orderId
  {
    hide BookOk, MatchSide, Apply, Run, SideIndexed, OnlyTrades, Served, FillsAt, QueueOk;
    var b := Run(cs);
    BookSides(b);
    RunIndexed(cs);
    SubmitTrades(b, c);
    var s := SideOf(b, !c.isBid);
    var limit := RankOf(!c.isBid, c.price);
    var m := MatchIncoming(b, c.price, c.quantity, c.isBid, c.client);
    TradesAreFills(s, b.ids, limit, TakerOf(b, c), c.quantity);
    TradesOfShape(m.fills, TakerOf(b, c), c.quantity);
    PlaceOk(m.side, r, k);
    assert m.fills[i].maker.price == PriceOf(s.isBid, r);
    LevelFifo(s, b.ids, limit, TakerOf(b, c), c.quantity, r);
    FillsAtHas(m.fills, i);
    LevelInTurn(s, b.ids, b.accepted, r, FillsAt(m.fills, PriceOf(s.isBid, r)), m.side.queues[r], m.fills[i], k);
  }

  lemma LevelInTurn(s: Side, ids: map<u32, nat>, n: nat, r: nat, fills: seq<Fill>, rest: seq<Order>, f: Fill, k: nat)
    requires SideIndexed(s, ids, n) && r < |s.queues| && Served(s.queues[r], fills, rest) && f in fills && k < |rest|
    ensures f.maker.orderId <= rest[k].orderId
  {
    var q := s.queues[r];
    assert QueueIndexed(s.isBid, ids, n, q);
    FilledInTurn(q, SumFills(fills), 0);
  }
}
