/** Price-time priority: matching equals greedy filling of any list of the resting orders that is
    sorted by price and then by arrival. */
module Ranking {
  import opened Types
  import opened Matching
  import opened BookModel
  import opened PriceTime
  import opened IdIndex

  predicate Better(isBid: bool, p: int, q: int) {
    if isBid then p > q else p < q
  }

  /** a is served before b: better price, or the same price and an earlier id. */
  predicate Before(a: Order, b: Order) {
    a.isBid == b.isBid && (Better(a.isBid, a.price, b.price) || (a.price == b.price && a.orderId < b.orderId))
  }

  predicate Ranked(os: seq<Order>) {
    forall i, j :: 0 <= i < j < |os| ==> Before(os[i], os[j])
  }

  /** All resting orders of a side. */
  function Resting(s: Side): seq<Order> {
    Exposed(s.queues, 0, NUM_LEVELS - 1)
  }

  predicate RanksWithin(isBid: bool, os: seq<Order>, lo: int, hi: int) {
    forall i :: 0 <= i < |os| ==> os[i].isBid == isBid && lo <= RankOf(isBid, os[i].price) <= hi
  }

  lemma QueueRanks(s: Side, a: nat)
    requires Slots(s) && a < NUM_LEVELS
    ensures RanksWithin(s.isBid, s.queues[a], a, a)
  {
  }

  lemma {:induction false} ExposedRanks(s: Side, a: nat, limit: int)
    requires Slots(s)
    ensures RanksWithin(s.isBid, Exposed(s.queues, a, limit), a, limit)
    decreases NUM_LEVELS - a
  {
    hide QueuesOk, HomeOk, FreeOk;
    SlotsLength(s);
    if a < NUM_LEVELS && a <= limit {
      QueueRanks(s, a);
      ExposedRanks(s, a + 1, limit);
    }
  }

  lemma {:induction false} ExposedRanked(s: Side, ids: map<u32, nat>, n: nat, a: nat, limit: int)
    requires Slots(s) && SideIndexed(s, ids, n)
    ensures Ranked(Exposed(s.queues, a, limit))
    decreases NUM_LEVELS - a
  {
    hide QueuesOk, HomeOk, FreeOk;
    if a < |s.queues| && a <= limit {
      SlotsLength(s);
      ExposedRanked(s, ids, n, a + 1, limit);
      QueueRanks(s, a);
      ExposedRanks(s, a + 1, limit);
      assert QueueIndexed(s.isBid, ids, n, s.queues[a]);
      RankedConcat(s.queues[a], Exposed(s.queues, a + 1, limit));
    }
  }

  lemma RankedConcat(a: seq<Order>, b: seq<Order>)
    requires Ranked(a) && Ranked(b)
    requires forall i, j :: 0 <= i < |a| && 0 <= j < |b| ==> Before(a[i], b[j])
    ensures Ranked(a + b)
  {
  }

  lemma RankedHead(a: seq<Order>, b: seq<Order>)
    requires Ranked(a) && Ranked(b) && a != [] && b != [] && a[0] in b && b[0] in a
    ensures a[0] == b[0]
  {
  }

  lemma RankedTail(a: seq<Order>)
    requires Ranked(a) && a != []
    ensures Ranked(a[1..])
  {
  }

  lemma MultisetTail(x: Order, a: seq<Order>, b: seq<Order>)
    requires multiset([x] + a) == multiset([x] + b)
    ensures multiset(a) == multiset(b)
  {
    assert multiset(a) == multiset([x] + a) - multiset{x};
    assert multiset(b) == multiset([x] + b) - multiset{x};
  }

  /** A ranking is determined by the orders it ranks. */
  lemma {:induction false} RankedUnique(a: seq<Order>, b: seq<Order>)
    requires Ranked(a) && Ranked(b) && multiset(a) == multiset(b)
    ensures a == b
  {
    hide Ranked;
    assert |a| == |multiset(a)| == |b|;
    if a != [] {
      assert a[0] in multiset(b) && b[0] in multiset(a);
      RankedHead(a, b);
      RankedTail(a);
      RankedTail(b);
      assert a == [a[0]] + a[1..] && b == [a[0]] + b[1..];
      MultisetTail(a[0], a[1..], b[1..]);
      RankedUnique(a[1..], b[1..]);
    }
  }

  // ----- The reference: greedy filling up to a limit price -----

  /** Whether a resting price is acceptable to an incoming order with this limit. */
  predicate Acceptable(isBid: bool, price: int, limit: int) {
    if isBid then price >= limit else price <= limit
  }

  function FillUpTo(ranking: seq<Order>, limit: int, qty: nat): FillResult
    requires AllSound(ranking)
  {
    if ranking == [] || qty == 0 || !Acceptable(ranking[0].isBid, ranking[0].price, limit)
        then FillResult(ranking, [], qty)
    else
      var o := ranking[0];
      assert Sound(o);
      if o.remaining <= qty then
        var f := FillUpTo(ranking[1..], limit, qty - o.remaining);
        FillResult(f.rest, [Fill(o, o.remaining)] + f.fills, f.left)
      else
        FillResult([Traded(o, qty)] + ranking[1..], [Fill(o, qty)], 0)
  }

  /** Greedy filling up to the limit is plain filling of an acceptable prefix, if that ends at the
      limit or uses up the taker. */
  lemma {:induction false} FillUpToSplit(near: seq<Order>, far: seq<Order>, limit: int, qty: nat)
    requires AllSound(near) && AllSound(far)
    requires forall i :: 0 <= i < |near| ==> Acceptable(near[i].isBid, near[i].price, limit)
    requires far != [] && 0 < FillQueue(near, qty).left ==> !Acceptable(far[0].isBid, far[0].price, limit)
    ensures AllSound(near + far)
    ensures var f := FillQueue(near, qty);
            FillUpTo(near + far, limit, qty) == FillResult(f.rest + far, f.fills, f.left)
  {
    if near == [] {
      assert near + far == far;
    } else if qty != 0 {
      var o, tail := near[0], near[1..];
      assert Sound(o) && AllSound(tail);
      FillCons(o, tail, qty);
      assert near == [o] + tail;
      FillUpToSplit(tail, far, limit, if o.remaining <= qty then qty - o.remaining else 0);
      FillUpToCons(o, tail, far, limit, qty);
    }
  }

  lemma {:induction false} FillUpToCons(o: Order, tail: seq<Order>, far: seq<Order>, limit: int, qty: nat)
    requires Sound(o) && AllSound(tail) && AllSound(tail + far) && 0 < qty && Acceptable(o.isBid, o.price, limit)
    requires var left := if o.remaining <= qty then qty - o.remaining else 0;
             var f := FillQueue(tail, left);
             FillUpTo(tail + far, limit, left) == FillResult(f.rest + far, f.fills, f.left)
    ensures AllSound([o] + tail) && AllSound([o] + tail + far)
    ensures var f := FillQueue([o] + tail, qty);
            FillUpTo([o] + tail + far, limit, qty) == FillResult(f.rest + far, f.fills, f.left)
  {
    hide FillQueue, Acceptable;
    FillCons(o, tail, qty);
    var all := [o] + tail + far;
    assert all[0] == o && all[1..] == tail + far;
    if qty < o.remaining {
      assert [Traded(o, qty)] + (tail + far) == ([Traded(o, qty)] + tail) + far;
    }
  }

  // ----- Matching against the reference -----

  /** A hidden level within the limit that the ranking would reach: the levels better than it do
      not hold enough for the taker. */
  predicate Misses(s: Side, limit: int, qty: nat) {
    exists r: nat :: r <= limit && Hidden(s, r) && SumRemaining(Exposed(s.queues, 0, r - 1)) < qty
  }

  /** Matching an incoming order is filling, up to its limit price, whatever list ranks the resting
      orders by price and arrival: same makers, same quantities, same residual, same survivors. This
      is so if and only if the ranking does not reach a hidden level. */
  lemma PriceTimePriority(s: Side, ids: map<u32, nat>, n: nat, price: int, taker: Taker, qty: nat,
                          ranking: seq<Order>)
    requires SideOk(s) && SideIndexed(s, ids, n)
    requires MINIMUM_BID <= price <= MAXIMUM_ASK && qty <= taker.total
    requires Ranked(ranking) && multiset(ranking) == multiset(Resting(s))
    ensures AllSound(ranking)
    ensures var limit := RankOf(s.isBid, price);
            var m := MatchSide(s, ids, limit, taker, qty);
            var f := FillUpTo(ranking, price, qty);
            && (m.fills == f.fills <==> !Misses(s, limit, qty))
            && (m.fills == f.fills ==> m.left == f.left && Resting(m.side) == f.rest)
  {
    hide QueuesOk, HomeOk, FreeOk, SideIndexed, MatchSide, Ranked, FillUpTo, Exposed, Misses;
    var limit := RankOf(s.isBid, price);
    ExposedRanked(s, ids, n, 0, NUM_LEVELS - 1);
    RankedUnique(ranking, Resting(s));
    ExposedSound(s, 0, NUM_LEVELS - 1);
    if Misses(s, limit, qty) {
      MissesOrder(s, ids, price, taker, qty);
    } else {
      var cut := Cut(s, ids, limit, taker, qty);
      CutMatch(s, ids, price, cut, taker, qty);
    }
  }

  /** How far matching may look without meeting a hidden level. */
  lemma Cut(s: Side, ids: map<u32, nat>, limit: int, taker: Taker, qty: nat) returns (cut: int)
    requires SideOk(s) && qty <= taker.total && 0 <= limit < NUM_LEVELS && !Misses(s, limit, qty)
    ensures -1 <= cut <= limit && (forall r :: 0 <= r <= cut ==> !Hidden(s, r))
    ensures cut < limit ==> MatchSide(s, ids, cut, taker, qty).left == 0
  {
    hide QueuesOk, HomeOk, FreeOk, MatchSide, Exposed, Hidden;
    cut := -1;
    while cut < limit && !Hidden(s, cut + 1)
      invariant -1 <= cut <= limit && forall r :: 0 <= r <= cut ==> !Hidden(s, r)
    {
      cut := cut + 1;
    }
    if cut < limit {
      var r: nat := cut + 1;
      assert qty <= SumRemaining(Exposed(s.queues, 0, r - 1));
      EnoughOffered(s, ids, cut, taker, qty);
    }
  }

  lemma EnoughOffered(s: Side, ids: map<u32, nat>, cut: int, taker: Taker, qty: nat)
    requires SideOk(s) && qty <= taker.total && (forall r :: 0 <= r <= cut ==> !Hidden(s, r))
    requires qty <= SumRemaining(Exposed(s.queues, 0, cut))
    ensures MatchSide(s, ids, cut, taker, qty).left == 0
  {
    hide QueuesOk, HomeOk, FreeOk, MatchSide, Exposed, Hidden, FillQueue;
    MatchIsGreedy(s, ids, cut, taker, qty);
    ExposedFrame(Offered(s), s.queues, 0, cut);
    FillConserves(Exposed(s.queues, 0, cut), qty);
    NothingRemains(FillQueue(Exposed(s.queues, 0, cut), qty).rest);
  }

  lemma NothingRemains(os: seq<Order>)
    ensures os == [] ==> SumRemaining(os) == 0
  {
  }

  /** A higher limit does not matter to a taker that is filled. */
  lemma {:induction false} MatchNoFurther(s: Side, ids: map<u32, nat>, cut: int, limit: int, taker: Taker, qty: nat)
    requires SideOk(s) && qty <= taker.total && cut <= limit && MatchSide(s, ids, cut, taker, qty).left == 0
    ensures MatchSide(s, ids, limit, taker, qty) == MatchSide(s, ids, cut, taker, qty)
    decreases qty
  {
    hide SideOk, MatchOne;
    if CanMatch(s, cut, qty) {
      var m := MatchOne(s, ids, taker, qty);
      MatchNoFurther(m.side, m.ids, cut, limit, taker, m.left);
    }
  }

  lemma CutMatch(s: Side, ids: map<u32, nat>, price: int, cut: int, taker: Taker, qty: nat)
    requires SideOk(s) && MINIMUM_BID <= price <= MAXIMUM_ASK && qty <= taker.total
    requires -1 <= cut <= RankOf(s.isBid, price) && forall r :: 0 <= r <= cut ==> !Hidden(s, r)
    requires cut < RankOf(s.isBid, price) ==> MatchSide(s, ids, cut, taker, qty).left == 0
    ensures AllSound(Resting(s))
    ensures var m := MatchSide(s, ids, RankOf(s.isBid, price), taker, qty);
            var f := FillUpTo(Resting(s), price, qty);
            m.fills == f.fills && m.left == f.left && Resting(m.side) == f.rest
  {
    hide QueuesOk, HomeOk, FreeOk, MatchSide, FillUpTo, FillQueue, Exposed, Hidden;
    var limit := RankOf(s.isBid, price);
    var m := MatchSide(s, ids, cut, taker, qty);
    MatchIsGreedy(s, ids, cut, taker, qty);
    MatchSideFrame(s, ids, cut, taker, qty);
    if cut < limit {
      MatchNoFurther(s, ids, cut, limit, taker, qty);
    }
    ExposedFrame(Offered(s), s.queues, 0, cut);
    ExposedFrame(Offered(m.side), m.side.queues, 0, cut);
    ExposedFrame(s.queues, m.side.queues, cut + 1, NUM_LEVELS - 1);
    ExposedSplit(s.queues, 0, cut, NUM_LEVELS - 1);
    ExposedSplit(m.side.queues, 0, cut, NUM_LEVELS - 1);
    ExposedSound(s, cut + 1, NUM_LEVELS - 1);
    ExposedRanks(s, 0, cut);
    ExposedRanks(s, cut + 1, NUM_LEVELS - 1);
    FillUpToSplit(Exposed(s.queues, 0, cut), Exposed(s.queues, cut + 1, NUM_LEVELS - 1), price, qty);
  }

  predicate NoneAt(isBid: bool, fills: seq<Fill>, r: int) {
    forall i :: 0 <= i < |fills| ==> RankOf(isBid, fills[i].maker.price) != r
  }

  /** Matching never trades with a hidden level... */
  lemma {:induction false} HiddenUntouched(s: Side, ids: map<u32, nat>, limit: int, taker: Taker, qty: nat, r: int)
    requires SideOk(s) && qty <= taker.total && Hidden(s, r)
    ensures NoneAt(s.isBid, MatchSide(s, ids, limit, taker, qty).fills, r)
    decreases qty
  {
    hide QueuesOk, HomeOk, FreeOk, MatchOne, Hidden;
    if CanMatch(s, limit, qty) {
      var m := MatchOne(s, ids, taker, qty);
      MatchOneStep(s, ids, taker, qty);
      PlaceOk(s, s.best, 0);
      NotHidden(s);
      HiddenUntouched(m.side, m.ids, limit, taker, m.left, r);
    }
  }

  /** ... while the ranking does when it reaches one. */
  lemma MissesOrder(s: Side, ids: map<u32, nat>, price: int, taker: Taker, qty: nat)
    requires SideOk(s) && MINIMUM_BID <= price <= MAXIMUM_ASK && qty <= taker.total
    requires Misses(s, RankOf(s.isBid, price), qty)
    ensures AllSound(Resting(s))
    ensures MatchSide(s, ids, RankOf(s.isBid, price), taker, qty).fills != FillUpTo(Resting(s), price, qty).fills
  {
    hide QueuesOk, HomeOk, FreeOk, MatchSide, FillUpTo, FillQueue, Exposed;
    var limit := RankOf(s.isBid, price);
    var r: nat :| r <= limit && Hidden(s, r) && SumRemaining(Exposed(s.queues, 0, r - 1)) < qty;
    HiddenUntouched(s, ids, limit, taker, qty, r);
    RankingReaches(s, price, qty, r);
  }

  lemma RankingReaches(s: Side, price: int, qty: nat, r: nat)
    requires SideOk(s) && MINIMUM_BID <= price <= MAXIMUM_ASK && r <= RankOf(s.isBid, price)
    requires s.queues[r] != [] && SumRemaining(Exposed(s.queues, 0, r - 1)) < qty
    ensures AllSound(Resting(s))
    ensures var fills := FillUpTo(Resting(s), price, qty).fills;
            exists k :: 0 <= k < |fills| && RankOf(s.isBid, fills[k].maker.price) == r
  {
    hide QueuesOk, HomeOk, FreeOk, FillUpTo, FillQueue, Exposed;
    var limit := RankOf(s.isBid, price);
    var near, far := Exposed(s.queues, 0, limit), Exposed(s.queues, limit + 1, NUM_LEVELS - 1);
    ExposedSplit(s.queues, 0, limit, NUM_LEVELS - 1);
    ExposedSound(s, 0, limit);
    ExposedSound(s, limit + 1, NUM_LEVELS - 1);
    ExposedRanks(s, 0, limit);
    ExposedRanks(s, limit + 1, NUM_LEVELS - 1);
    FillUpToSplit(near, far, price, qty);
    var k := |Exposed(s.queues, 0, r - 1)|;
    ExposedSplit(s.queues, 0, r - 1, limit);
    ExposedStarts(s.queues, r, limit);
    assert near[..k] == Exposed(s.queues, 0, r - 1) && near[k] == s.queues[r][0];
    FillIsGreedy(near, qty, k);
    PlaceOk(s, r, 0);
    assert FillQueue(near, qty).fills[k].maker == s.queues[r][0];
  }

  lemma ExposedStarts(qs: seq<seq<Order>>, r: nat, limit: int)
    requires r < |qs| && r <= limit && qs[r] != []
    ensures Exposed(qs, r, limit) != [] && Exposed(qs, r, limit)[0] == qs[r][0]
  {
  }

  /** An exact best price with totals that do not wrap hides nothing. */
  lemma ExactNeverMisses(s: Side, limit: int, qty: nat)
    requires SideOk(s) && TrueBest(s) && NoWrap(s.queues)
    ensures !Misses(s, limit, qty)
  {
    hide HomeOk, FreeOk, Exposed;
    forall r: nat | r < NUM_LEVELS ensures !Hidden(s, r) {
      LevelTotalZero(s, r);
    }
  }

  // ----- What is reported -----

  /** The trade callbacks of a list of fills, for a taker with `left` still to fill. */
  function TradesOf(fills: seq<Fill>, taker: Taker, left: nat): seq<Event>
    requires SumFills(fills) <= left <= taker.total
    requires forall i :: 0 <= i < |fills| ==> Sound(fills[i].maker) && fills[i].quantity <= fills[i].maker.remaining
  {
    if fills == [] then []
    else
      var f := fills[0];
      assert Sound(f.maker);
      [Trade(Traded(f.maker, f.quantity), taker.client, taker.id, f.maker.price, taker.total,
             taker.total - (left - f.quantity), f.quantity)]
      + TradesOf(fills[1..], taker, left - f.quantity)
  }

  function OnlyTrades(events: seq<Event>): seq<Event> {
    if events == [] then []
    else (if events[0].Trade? then [events[0]] else []) + OnlyTrades(events[1..])
  }

  lemma OnlyTradesCons(e: Event, es: seq<Event>)
    ensures OnlyTrades([e] + es) == (if e.Trade? then [e] else []) + OnlyTrades(es)
    ensures OnlyTrades([]) == []
  {
  }

  lemma {:induction false} OnlyTradesConcat(a: seq<Event>, b: seq<Event>)
    ensures OnlyTrades(a + b) == OnlyTrades(a) + OnlyTrades(b)
  {
    if a == [] {
      assert a + b == b;
    } else {
      var e, tail := a[0], a[1..];
      OnlyTradesConcat(tail, b);
      TradesRegroup(e, tail, b);
      assert a == [e] + tail;
    }
  }

  lemma TradesRegroup(e: Event, a: seq<Event>, b: seq<Event>)
    requires OnlyTrades(a + b) == OnlyTrades(a) + OnlyTrades(b)
    ensures OnlyTrades(([e] + a) + b) == OnlyTrades([e] + a) + OnlyTrades(b)
  {
    hide OnlyTrades;
    OnlyTradesCons(e, a + b);
    OnlyTradesCons(e, a);
    assert ([e] + a) + b == [e] + (a + b);
  }

  lemma OneTrade(trade: Event, update: Event)
    requires trade.Trade? && !update.Trade?
    ensures OnlyTrades([trade]) == OnlyTrades([trade, update]) == [trade]
  {
    hide OnlyTrades;
    OnlyTradesCons(trade, []);
    OnlyTradesCons(update, []);
    OnlyTradesCons(trade, [update]);
    assert [trade] + [] == [trade] && [update] + [] == [update] && [trade] + [update] == [trade, update];
  }

  lemma MatchOneTrades(s: Side, ids: map<u32, nat>, taker: Taker, qty: nat)
    requires SideOk(s) && s.best < NUM_LEVELS && 0 < qty <= taker.total
    ensures var m := MatchOne(s, ids, taker, qty);
            var o := s.queues[s.best][0];
            var t := Min(o.remaining, qty);
            && Sound(o) && o.isBid == s.isBid && o.price == PriceOf(s.isBid, s.best)
            && m.fills == [Fill(o, t)] && m.left == qty - t
            && OnlyTrades(m.events) == [Trade(Traded(o, t), taker.client, taker.id, o.price, taker.total,
                                              taker.total - m.left, t)]
  {
    hide QueuesOk, HomeOk, FreeOk, MatchOne;
    PlaceOk(s, s.best, 0);
    var m := MatchOne(s, ids, taker, qty);
    if s.queues[s.best][0].remaining <= qty {
      MatchOneWhole(s, ids, taker, qty);
    } else {
      MatchOnePart(s, ids, taker, qty);
    }
    assert m.events == [m.events[0]] || m.events == [m.events[0], m.events[1]];
    OneTrade(m.events[0], if |m.events| == 2 then m.events[1] else LevelUpdate(true, 0, 0));
  }

  /** On every run, whatever the cached best price: the trades reported are the fills, each at its
      maker's own price and within the taker's limit, and they add up to what the taker received. */
  lemma {:induction false} TradesAreFills(s: Side, ids: map<u32, nat>, limit: int, taker: Taker, qty: nat)
    requires SideOk(s) && qty <= taker.total
    ensures var m := MatchSide(s, ids, limit, taker, qty);
            && (forall i :: 0 <= i < |m.fills| ==>
                  && Sound(m.fills[i].maker) && 0 < m.fills[i].quantity <= m.fills[i].maker.remaining
                  && m.fills[i].maker.isBid == s.isBid
                  && RankOf(s.isBid, m.fills[i].maker.price) <= limit)
            && SumFills(m.fills) == qty - m.left
            && OnlyTrades(m.events) == TradesOf(m.fills, taker, qty)
    decreases qty
  {
    hide SideOk, MatchOne;
    if CanMatch(s, limit, qty) {
      var m := MatchOne(s, ids, taker, qty);
      MatchOneTrades(s, ids, taker, qty);
      TradesAreFills(m.side, m.ids, limit, taker, m.left);
      var n := MatchSide(m.side, m.ids, limit, taker, m.left);
      OnlyTradesConcat(m.events, n.events);
      assert (m.fills + n.fills)[1..] == n.fills;
    }
  }
}
