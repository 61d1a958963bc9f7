/** Concrete runs on which the cached best price goes wrong and the book becomes crossed. */
module Counterexamples {
  import opened Types
  import opened BookModel
  import opened PriceTime
  import opened BestPrice
  import opened Assertion
  import opened Ranking
  import opened Fairness

  // ----- Books described by the ids at each rank -----

  /** The order ids at each rank that has any. */
  type Layout = map<nat, seq<u32>>

  function IdsAt(layout: Layout, r: nat): seq<u32> {
    if r in layout then layout[r] else []
  }

  /** Untouched orders of client 1, all of one size, with these ids. */
  predicate QueueLaid(isBid: bool, ids: map<u32, nat>, q: seq<Order>, want: seq<u32>, size: u32) {
    && |q| == |want|
    && forall k :: 0 <= k < |q| ==>
         && q[k].orderId == want[k]
         && q[k].clientId == 1
         && q[k].quantity == q[k].remaining == size
         && q[k].cumulative == 0
         && want[k] in ids
         && ids[want[k]] == Encode(q[k].handle, isBid)
  }

  predicate SideLaid(s: Side, ids: map<u32, nat>, layout: Layout, best: nat, size: u32) {
    && |s.queues| == NUM_LEVELS
    && s.best == best
    && forall r :: 0 <= r < NUM_LEVELS ==> QueueLaid(s.isBid, ids, s.queues[r], IdsAt(layout, r), size)
  }

  /** The book after n accepted submissions: one side holds `own`, the other `other`. */
  predicate Laid(b: Book, isBid: bool, own: Layout, ownBest: nat, other: Layout, otherBest: nat, n: nat, size: u32) {
    && BookOk(b)
    && SideLaid(SideOf(b, isBid), b.ids, own, ownBest, size)
    && SideLaid(SideOf(b, !isBid), b.ids, other, otherBest, size)
    && MAX_ORDERS <= |b.bids.free| + n && MAX_ORDERS <= |b.asks.free| + n
    && b.accepted == n
    && forall id :: id in b.ids ==> id < n
  }

  lemma LaidSwap(b: Book, isBid: bool, own: Layout, ownBest: nat, other: Layout, otherBest: nat, n: nat, size: u32)
    requires Laid(b, isBid, own, ownBest, other, otherBest, n, size)
    ensures Laid(b, !isBid, other, otherBest, own, ownBest, n, size)
  {
    hide BookOk, SideLaid;
  }

  lemma LaidEmpty(size: u32)
    ensures Laid(Run([]), true, map[], NUM_LEVELS, map[], NUM_LEVELS, 0, size)
  {
    hide BookOk;
  }

  // ----- A submission that trades with nobody -----

  lemma QuietMatch(b: Book, c: Command)
    requires BookOk(b) && Accepted(c) && SideOf(b, c.isBid).free != []
    requires !CanMatch(SideOf(b, !c.isBid), RankOf(!c.isBid, c.price), c.quantity)
    ensures var own := SideOf(b, c.isBid);
            var o := Order(own.free[0], c.client, Wrap(b.accepted), c.price, c.quantity, c.quantity, 0, c.isBid);
            && BookOk(Apply(b, c).book)
            && Apply(b, c).book == WithSide(b, Added(own, RankOf(c.isBid, c.price), o))
                                     .(ids := LearnId(b.ids, o), accepted := b.accepted + 1)
  {
    hide SideOk, IdsSide, Added, LearnId;
    ApplyOk(b, c);
  }

  lemma QueueAdded(isBid: bool, ids: map<u32, nat>, q: seq<Order>, want: seq<u32>, size: u32, o: Order)
    requires QueueLaid(isBid, ids, q, want, size) && o.orderId !in ids && o.clientId == 1
    requires o.quantity == o.remaining == size && o.cumulative == 0 && o.isBid == isBid
    ensures QueueLaid(isBid, LearnId(ids, o), q + [o], want + [o.orderId], size)
  {
  }

  lemma QueueLearns(isBid: bool, ids: map<u32, nat>, q: seq<Order>, want: seq<u32>, size: u32, o: Order)
    requires QueueLaid(isBid, ids, q, want, size)
    ensures QueueLaid(isBid, LearnId(ids, o), q, want, size)
  {
  }

  function Improved(best: nat, r: nat): nat {
    if best == NUM_LEVELS || r < best then r else best
  }

  function Put(layout: Layout, r: nat, id: u32): Layout {
    layout[r := IdsAt(layout, r) + [id]]
  }

  lemma PutLone(layout: Layout, r: nat, id: u32)
    requires r !in layout
    ensures Put(layout, r, id) == layout[r := [id]]
  {
    assert [] + [id] == [id];
  }

  lemma SideAdded(s: Side, ids: map<u32, nat>, layout: Layout, best: nat, size: u32, r: nat, o: Order)
    requires SideLaid(s, ids, layout, best, size) && r < NUM_LEVELS && s.free != []
    requires o.orderId !in ids && o.clientId == 1 && o.isBid == s.isBid
    requires o.quantity == o.remaining == size && o.cumulative == 0
    ensures SideLaid(Added(s, r, o), LearnId(ids, o), Put(layout, r, o.orderId), Improved(best, r), size)
  {
    hide LearnId, QueueLaid;
    var t := Added(s, r, o);
    forall i | 0 <= i < NUM_LEVELS
      ensures QueueLaid(s.isBid, LearnId(ids, o), t.queues[i], IdsAt(Put(layout, r, o.orderId), i), size)
    {
      assert QueueLaid(s.isBid, ids, s.queues[i], IdsAt(layout, i), size);
      QueueLearns(s.isBid, ids, s.queues[i], IdsAt(layout, i), size, o);
      if i == r {
        QueueAdded(s.isBid, ids, s.queues[i], IdsAt(layout, i), size, o);
      }
    }
  }

  lemma SideLearns(s: Side, ids: map<u32, nat>, layout: Layout, best: nat, size: u32, o: Order)
    requires SideLaid(s, ids, layout, best, size)
    ensures SideLaid(s, LearnId(ids, o), layout, best, size)
  {
    hide LearnId, QueueLaid;
    forall i | 0 <= i < NUM_LEVELS ensures QueueLaid(s.isBid, LearnId(ids, o), s.queues[i], IdsAt(layout, i), size) {
      QueueLearns(s.isBid, ids, s.queues[i], IdsAt(layout, i), size, o);
    }
  }

  lemma Submitted(b: Book, c: Command, own: Layout, ownBest: nat, other: Layout, otherBest: nat, n: nat, size: u32)
    requires Accepted(c) && Laid(b, c.isBid, own, ownBest, other, otherBest, n, size)
    requires c.client == 1 && c.quantity == size && n < MAX_ORDERS
    requires otherBest == NUM_LEVELS || RankOf(!c.isBid, c.price) < otherBest
    ensures var r := RankOf(c.isBid, c.price);
            Laid(Apply(b, c).book, c.isBid, Put(own, r, n), Improved(ownBest, r), other, otherBest, n + 1, size)
  {
    hide BookOk, SideOk, LearnId, Put, Apply, SideLaid;
    BookSides(b);
    var s, r := SideOf(b, c.isBid), RankOf(c.isBid, c.price);
    assert s.free != [];
    NotMatching(SideOf(b, !c.isBid), b.ids, other, otherBest, size, RankOf(!c.isBid, c.price));
    var o := Order(s.free[0], 1, n, c.price, size, size, 0, c.isBid);
    QuietMatch(b, c);
    SideAdded(s, b.ids, own, ownBest, size, r, o);
    SideLearns(SideOf(b, !c.isBid), b.ids, other, otherBest, size, o);
    LearnedIds(b.ids, o);
  }

  lemma NotMatching(s: Side, ids: map<u32, nat>, layout: Layout, best: nat, size: u32, limit: int)
    requires SideLaid(s, ids, layout, best, size) && (best == NUM_LEVELS || limit < best)
    ensures !CanMatch(s, limit, size)
  {
  }

  lemma LearnedIds(ids: map<u32, nat>, o: Order)
    ensures forall id :: id in LearnId(ids, o) ==> id in ids || id == o.orderId
  {
  }

  // ----- A lone bid that its owner amends away -----

  lemma LookupLaid(b: Book, own: Layout, best: nat, other: Layout, otherBest: nat, n: nat, size: u32, id: u32, r: nat)
    requires Laid(b, true, own, best, other, otherBest, n, size) && r < NUM_LEVELS && IdsAt(own, r) == [id]
    ensures Lookup(b, id) == At(true, r, 0)
  {
    hide FreeOk, IdsSide;
    assert QueueLaid(true, b.ids, b.bids.queues[r], [id], size);
    PlaceOk(b.bids, r, 0);
  }

  lemma QueueForgets(isBid: bool, ids: map<u32, nat>, q: seq<Order>, want: seq<u32>, size: u32, id: u32)
    requires QueueLaid(isBid, ids, q, want, size) && id !in want
    ensures QueueLaid(isBid, ids - {id}, q, want, size)
  {
  }

  /** Where a bid re-scan starts. */
  function StartBehind(best: nat): nat {
    if best < NUM_LEVELS then best + 1 else 0
  }

  /** The nearest rank from `start` on that has orders, and has just one. */
  predicate NextLone(layout: Layout, start: nat, next: nat) {
    && start <= next <= NUM_LEVELS
    && (forall i :: start <= i < next ==> IdsAt(layout, i) == [])
    && (next < NUM_LEVELS ==> |IdsAt(layout, next)| == 1)
  }

  lemma ScanLaid(s: Side, ids: map<u32, nat>, layout: Layout, best: nat, size: u32, start: nat, next: nat)
    requires SideLaid(s, ids, layout, best, size) && 0 < size && NextLone(layout, start, next)
    ensures ScanFrom(s.queues, start) == next
  {
    hide Encode;
    forall i | start <= i < next ensures Total(s.queues[i]) == 0 {
      assert QueueLaid(s.isBid, ids, s.queues[i], IdsAt(layout, i), size);
    }
    if next < NUM_LEVELS {
      assert QueueLaid(s.isBid, ids, s.queues[next], IdsAt(layout, next), size);
      LoneTotal(s.queues[next]);
      assert 0 < Total(s.queues[next]);
    }
    ScanUnique(s.queues, start, next);
  }

  lemma ScanUnique(qs: seq<seq<Order>>, start: nat, next: nat)
    requires |qs| == NUM_LEVELS && start <= next <= NUM_LEVELS
    requires forall i :: start <= i < next ==> Total(qs[i]) == 0
    requires next < NUM_LEVELS ==> 0 < Total(qs[next])
    ensures ScanFrom(qs, start) == next
  {
    hide Total;
  }

  lemma LoneTotal(q: seq<Order>)
    requires |q| == 1
    ensures Total(q) == q[0].remaining
  {
    assert q[1..] == [];
    assert SumRemaining(q) == q[0].remaining + SumRemaining([]);
  }

  lemma AmendedAway(b: Book, c: Command, own: Layout, best: nat, other: Layout, otherBest: nat, n: nat, size: u32,
                    r: nat, next: nat)
    requires Laid(b, true, own, best, other, otherBest, n, size) && 0 < size
    requires c.Amend? && c.client == 1 && c.newQuantity == 0 && r < NUM_LEVELS && IdsAt(own, r) == [c.id]
    requires (forall i :: i in own && i != r ==> c.id !in own[i]) && forall i :: i in other ==> c.id !in other[i]
    requires NextLone(own - {r}, StartBehind(best), next)
    ensures Laid(Apply(b, c).book, true, own - {r}, next, other, otherBest, n, size)
  {
    hide BookOk, SideOk, SideLaid, ScanFrom, NextLone, Apply;
    LookupLaid(b, own, best, other, otherBest, n, size, c.id, r);
    BookSides(b);
    LoneOrder(b.bids, b.ids, own, best, size, r, c.id);
    AmendedForm(b, c, r);
    ApplyOk(b, c);
    var t, ids := RemoveAt(b.bids, r, 0), b.ids - {c.id};
    SideRemoved(b.bids, b.ids, own, best, size, r, c.id);
    SideForgets(b.asks, b.ids, other, otherBest, size, c.id);
    ScanLaid(t, ids, own - {r}, best, size, StartBehind(best), next);
    SideRescanned(t, ids, own - {r}, best, size, next);
  }

  lemma SideRescanned(s: Side, ids: map<u32, nat>, layout: Layout, best: nat, size: u32, next: nat)
    requires SideLaid(s, ids, layout, best, size) && s.isBid && ScanFrom(s.queues, StartBehind(best)) == next
    ensures SideLaid(Rescan(s), ids, layout, next, size)
  {
    hide QueueLaid, ScanFrom;
  }

  /** What amending a lone, untouched bid away does to the book. */
  lemma AmendedForm(b: Book, c: Command, r: nat)
    requires BookOk(b) && c.Amend? && c.newQuantity == 0 && r < NUM_LEVELS && Lookup(b, c.id) == At(true, r, 0)
    requires |b.bids.queues[r]| == 1
    requires var o := b.bids.queues[r][0];
             o.clientId == c.client && o.cumulative == 0 && 0 < o.remaining && o.orderId == c.id
    ensures Apply(b, c).book == b.(bids := Rescan(RemoveAt(b.bids, r, 0)), ids := b.ids - {c.id})
  {
    hide SideOk, IdsSide, Lookup, ScanFrom;
    BookSides(b);
    assert Without(b.bids.queues[r], 0) == [];
    assert Total(RemoveAt(b.bids, r, 0).queues[r]) == 0;
  }

  lemma SideRemoved(s: Side, ids: map<u32, nat>, layout: Layout, best: nat, size: u32, r: nat, id: u32)
    requires SideLaid(s, ids, layout, best, size) && s.isBid && r < NUM_LEVELS && IdsAt(layout, r) == [id]
    requires |s.queues[r]| == 1 && forall i :: i in layout && i != r ==> id !in layout[i]
    ensures SideLaid(RemoveAt(s, r, 0), ids - {id}, layout - {r}, best, size)
  {
    hide QueueLaid;
    var t := RemoveAt(s, r, 0);
    assert Without(s.queues[r], 0) == [];
    forall i | 0 <= i < NUM_LEVELS ensures QueueLaid(true, ids - {id}, t.queues[i], IdsAt(layout - {r}, i), size) {
      if i == r {
        NothingLaid(ids - {id}, size);
      } else {
        QueueForgets(true, ids, s.queues[i], IdsAt(layout, i), size, id);
      }
    }
  }

  lemma SideForgets(s: Side, ids: map<u32, nat>, layout: Layout, best: nat, size: u32, id: u32)
    requires SideLaid(s, ids, layout, best, size) && forall i :: i in layout ==> id !in layout[i]
    ensures SideLaid(s, ids - {id}, layout, best, size)
  {
    hide QueueLaid;
    forall i | 0 <= i < NUM_LEVELS ensures QueueLaid(s.isBid, ids - {id}, s.queues[i], IdsAt(layout, i), size) {
      QueueForgets(s.isBid, ids, s.queues[i], IdsAt(layout, i), size, id);
    }
  }

  lemma NothingLaid(ids: map<u32, nat>, size: u32)
    ensures QueueLaid(true, ids, [], [], size)
  {
  }

  lemma LoneOrder(s: Side, ids: map<u32, nat>, layout: Layout, best: nat, size: u32, r: nat, id: u32)
    requires SideLaid(s, ids, layout, best, size) && r < NUM_LEVELS && IdsAt(layout, r) == [id]
    ensures |s.queues[r]| == 1
    ensures var o := s.queues[r][0];
            o.orderId == id && o.clientId == 1 && o.cumulative == 0 && o.remaining == o.quantity == size
  {
    assert QueueLaid(s.isBid, ids, s.queues[r], IdsAt(layout, r), size);
  }

  // ----- Runs -----

  const FIVE: u32 := 5

  function Bid(price: int): Command {
    Submit(price, FIVE, true, 1, 0)
  }

  function Ask(price: int): Command {
    Submit(price, FIVE, false, 1, 0)
  }

  function AmendAway(id: u32): Command {
    Amend(1, 0, id, 0)
  }

  /** One more bid. */
  lemma BidStep(cs: seq<Command>, price: int, own: Layout, best: nat, other: Layout, otherBest: nat, n: nat)
    requires Laid(Run(cs), true, own, best, other, otherBest, n, FIVE) && n < MAX_ORDERS
    requires MINIMUM_BID <= price <= MAXIMUM_ASK && (otherBest == NUM_LEVELS || price - MINIMUM_BID < otherBest)
    ensures var r := NUM_LEVELS - 1 - (price - MINIMUM_BID);
            Laid(Run(cs + [Bid(price)]), true, Put(own, r, n), Improved(best, r), other, otherBest, n + 1, FIVE)
  {
    hide Laid, Run, Apply, Put;
    RunStep(cs, Bid(price));
    Submitted(Run(cs), Bid(price), own, best, other, otherBest, n, FIVE);
  }

  /** One more ask, while no best bid is cached. */
  lemma AskStep(cs: seq<Command>, price: int, own: Layout, other: Layout, otherBest: nat, n: nat)
    requires Laid(Run(cs), true, own, NUM_LEVELS, other, otherBest, n, FIVE) && n < MAX_ORDERS
    requires MINIMUM_BID <= price <= MAXIMUM_ASK
    ensures var r := price - MINIMUM_BID;
            Laid(Run(cs + [Ask(price)]), true, own, NUM_LEVELS, Put(other, r, n), Improved(otherBest, r), n + 1, FIVE)
  {
    hide Laid, Run, Apply, Put;
    RunStep(cs, Ask(price));
    LaidSwap(Run(cs), true, own, NUM_LEVELS, other, otherBest, n, FIVE);
    Submitted(Run(cs), Ask(price), other, otherBest, own, NUM_LEVELS, n, FIVE);
    var r := price - MINIMUM_BID;
    LaidSwap(Run(cs + [Ask(price)]), false, Put(other, r, n), Improved(otherBest, r), own, NUM_LEVELS, n + 1, FIVE);
  }

  /** One bid amended away. */
  lemma AmendStep(cs: seq<Command>, id: u32, own: Layout, best: nat, other: Layout, otherBest: nat, n: nat, r: nat,
                  next: nat)
    requires Laid(Run(cs), true, own, best, other, otherBest, n, FIVE)
    requires r < NUM_LEVELS && IdsAt(own, r) == [id]
    requires (forall i :: i in own && i != r ==> id !in own[i]) && forall i :: i in other ==> id !in other[i]
    requires NextLone(own - {r}, StartBehind(best), next)
    ensures Laid(Run(cs + [AmendAway(id)]), true, own - {r}, next, other, otherBest, n, FIVE)
  {
    hide Laid, Run, Apply, NextLone;
    RunStep(cs, AmendAway(id));
    AmendedAway(Run(cs), AmendAway(id), own, best, other, otherBest, n, FIVE, r, next);
  }

  lemma BidLone(cs: seq<Command>, price: int, own: Layout, best: nat, other: Layout, otherBest: nat, n: nat, r: nat)
    requires Laid(Run(cs), true, own, best, other, otherBest, n, FIVE) && n < MAX_ORDERS
    requires MINIMUM_BID <= price <= MAXIMUM_ASK && (otherBest == NUM_LEVELS || price - MINIMUM_BID < otherBest)
    requires r == NUM_LEVELS - 1 - (price - MINIMUM_BID) && r !in own
    ensures Laid(Run(cs + [Bid(price)]), true, own[r := [n]], Improved(best, r), other, otherBest, n + 1, FIVE)
  {
    hide Laid, Run, Put;
    BidStep(cs, price, own, best, other, otherBest, n);
    PutLone(own, r, n);
  }

  lemma NothingYet()
    ensures Laid(Run([]), true, map[], NUM_LEVELS, map[], NUM_LEVELS, 0, FIVE)
  {
    LaidEmpty(FIVE);
  }

  // A bid at 100 and one at 50, which is amended away.
  const C1: seq<Command> := [] + [Bid(100)]
  const C2: seq<Command> := C1 + [Bid(50)]
  const C3: seq<Command> := C2 + [AmendAway(1)]
  const C4: seq<Command> := C3 + [Ask(100)]

  lemma C2Laid()
    ensures Laid(Run(C2), true, map[9900 := [0]][9950 := [1]], 9900, map[], NUM_LEVELS, 2, FIVE)
  {
    hide Laid, Run, Bid;
    var none: Layout := map[];
    NothingYet();
    BidLone([], 100, none, NUM_LEVELS, none, NUM_LEVELS, 0, 9900);
    BidLone(C1, 50, none[9900 := [0]], 9900, none, NUM_LEVELS, 1, 9950);
  }

  lemma C3Laid()
    ensures Laid(Run(C3), true, map[9900 := [0]], NUM_LEVELS, map[], NUM_LEVELS, 2, FIVE)
  {
    hide Laid, Run, Bid, AmendAway;
    C2Laid();
    AmendLast(C2, 1, map[9900 := [0]], 9900, map[], NUM_LEVELS, 2, 9950, NUM_LEVELS);
  }

  /** Amending the lower bid away hides the better one: no best bid is cached although the bid at
      100 still rests. */
  lemma AmendHidesBestBid()
    ensures Exact(Run(C2)) && Hides(Run(C2), AmendAway(1))
    ensures var b := Run(C3); b.bids.best == NUM_LEVELS && b.bids.queues[9900] != [] && !Exact(b)
  {
    hide Run, Apply, Hides, BookOk;
    C2Laid();
    C3Laid();
    LaidExact(Run(C2), map[9900 := [0]][9950 := [1]], 9900, map[], NUM_LEVELS, 2, FIVE);
    var b := Run(C3);
    assert QueueLaid(b.bids.isBid, b.ids, b.bids.queues[9900], [0], FIVE);
    ApplyKeepsBest(Run(C2), AmendAway(1));
    RunStep(C2, AmendAway(1));
  }

  lemma LaidExact(b: Book, own: Layout, best: nat, other: Layout, otherBest: nat, n: nat, size: u32)
    requires Laid(b, true, own, best, other, otherBest, n, size)
    requires (forall r :: r in own ==> best <= r) && forall r :: r in other ==> otherBest <= r
    ensures Exact(b)
  {
    hide BookOk;
    forall r | 0 <= r < best && r < NUM_LEVELS ensures b.bids.queues[r] == [] {
      assert QueueLaid(b.bids.isBid, b.ids, b.bids.queues[r], IdsAt(own, r), size);
    }
    forall r | 0 <= r < otherBest && r < NUM_LEVELS ensures b.asks.queues[r] == [] {
      assert QueueLaid(b.asks.isBid, b.ids, b.asks.queues[r], IdsAt(other, r), size);
    }
  }

  /** An ask at 100 then rests opposite the hidden bid at 100 without trading. */
  lemma HiddenBidCrosses()
    ensures !NotCrossed(Run(C4))
  {
    hide Run, BookOk, NotCrossed;
    C3Laid();
    AskStep(C3, 100, map[9900 := [0]], map[], NUM_LEVELS, 2);
    LaidCrossed(Run(C4), map[9900 := [0]], NUM_LEVELS, Put(map[], 99, 2), 99, 3, FIVE, 9900, 99);
  }

  lemma LaidCrossed(b: Book, own: Layout, best: nat, other: Layout, otherBest: nat, n: nat, size: u32, i: nat, j: nat)
    requires Laid(b, true, own, best, other, otherBest, n, size) && i < NUM_LEVELS && j < NUM_LEVELS
    requires IdsAt(own, i) != [] && IdsAt(other, j) != [] && PriceOf(true, i) >= PriceOf(false, j)
    ensures !NotCrossed(b)
  {
    hide BookOk, NotCrossed;
    assert QueueLaid(b.bids.isBid, b.ids, b.bids.queues[i], IdsAt(own, i), size);
    assert QueueLaid(b.asks.isBid, b.ids, b.asks.queues[j], IdsAt(other, j), size);
    Crossing(b, i, j);
  }

  /** That ask does not trade at all, while filling any price-time ranking of the bids trades: price
      priority is violated. */
  lemma HiddenBidSkipped(ranking: seq<Order>)
    requires Ranked(ranking) && multiset(ranking) == multiset(Resting(Run(C3).bids))
    ensures Misses(Run(C3).bids, RankOf(true, 100), FIVE)
    ensures AllSound(ranking)
    ensures OnlyTrades(Apply(Run(C3), Ask(100)).events) == [] && FillUpTo(ranking, 100, FIVE).fills != []
  {
    hide Run, BookOk, Apply, Resting, Ranked, FillUpTo, Misses, MatchSide, Exposed;
    C3Laid();
    var b := Run(C3);
    HiddenFirst(b, map[9900 := [0]], map[], NUM_LEVELS, 2, FIVE, 9900, 0);
    SubmitTrades(b, Ask(100));
    QuietTrades(b, Ask(100));
    RunPriceTime(C3, Ask(100), ranking);
  }

  /** The first bid, hidden because no best bid is cached. */
  lemma HiddenFirst(b: Book, own: Layout, other: Layout, otherBest: nat, n: nat, size: u32, r: nat, id: u32)
    requires Laid(b, true, own, NUM_LEVELS, other, otherBest, n, size) && r < NUM_LEVELS && 0 < size
    requires own == map[r := [id]]
    ensures Misses(b.bids, r, size)
  {
    hide BookOk, Total, Encode;
    var s := b.bids;
    forall i | 0 <= i < NUM_LEVELS && i != r ensures s.queues[i] == [] {
      assert QueueLaid(s.isBid, b.ids, s.queues[i], IdsAt(own, i), size);
    }
    assert QueueLaid(s.isBid, b.ids, s.queues[r], IdsAt(own, r), size);
    ExposedEmpty(s.queues, 0, r - 1);
    assert Hidden(s, r) && SumRemaining(Exposed(s.queues, 0, r - 1)) < size;
  }

  lemma QuietTrades(b: Book, c: Command)
    requires BookOk(b) && Accepted(c) && SideOf(b, !c.isBid).best == NUM_LEVELS
    ensures OnlyTrades(MatchIncoming(b, c.price, c.quantity, c.isBid, c.client).events) == []
  {
    hide SideOk, IdsSide;
  }

  // ----- A run on which the assertion fails -----

  const D1: seq<Command> := [] + [Bid(100)]
  const D2: seq<Command> := D1 + [Bid(99)]
  const D3: seq<Command> := D2 + [Bid(50)]
  const D4: seq<Command> := D3 + [AmendAway(2)]
  const D5: seq<Command> := D4 + [Bid(40)]
  const D6: seq<Command> := D5 + [AmendAway(3)]
  const D7: seq<Command> := D6 + [Ask(60)]
  const D8: seq<Command> := D7 + [AmendAway(1)]
  const D9: seq<Command> := D8 + [Bid(1)]

  lemma D2Laid()
    ensures Laid(Run(D2), true, map[9900 := [0]][9901 := [1]], 9900, map[], NUM_LEVELS, 2, FIVE)
  {
    hide Laid, Run, Bid;
    var none: Layout := map[];
    NothingYet();
    BidLone([], 100, none, NUM_LEVELS, none, NUM_LEVELS, 0, 9900);
    BidLone(D1, 99, none[9900 := [0]], 9900, none, NUM_LEVELS, 1, 9901);
  }

  /** The bid at 100 is hidden behind the one at 99. */
  lemma D4Laid()
    ensures Laid(Run(D4), true, map[9900 := [0]][9901 := [1]], 9901, map[], NUM_LEVELS, 3, FIVE)
  {
    hide Laid, Run, Bid, AmendAway;
    var two: Layout := map[9900 := [0]][9901 := [1]];
    D2Laid();
    BidLone(D2, 50, two, 9900, map[], NUM_LEVELS, 2, 9950);
    AmendLast(D3, 2, two, 9900, map[], NUM_LEVELS, 3, 9950, 9901);
  }

  /** The bid amended away stands at a rank of its own. */
  lemma AmendLast(cs: seq<Command>, id: u32, rest: Layout, best: nat, other: Layout, otherBest: nat, n: nat,
                  r: nat, next: nat)
    requires Laid(Run(cs), true, rest[r := [id]], best, other, otherBest, n, FIVE) && r < NUM_LEVELS && r !in rest
    requires (forall i :: i in rest ==> id !in rest[i]) && forall i :: i in other ==> id !in other[i]
    requires NextLone(rest, StartBehind(best), next)
    ensures Laid(Run(cs + [AmendAway(id)]), true, rest, next, other, otherBest, n, FIVE)
  {
    hide Laid, Run, NextLone, AmendAway;
    assert rest[r := [id]] - {r} == rest;
    AmendStep(cs, id, rest[r := [id]], best, other, otherBest, n, r, next);
  }

  /** Both bids are hidden, and an ask at 60 rests below them. */
  lemma D7Laid()
    ensures Laid(Run(D7), true, map[9900 := [0]][9901 := [1]], NUM_LEVELS, map[59 := [4]], 59, 5, FIVE)
  {
    hide Laid, Run, Put, Bid, Ask, AmendAway;
    var none: Layout := map[];
    var two: Layout := map[9900 := [0]][9901 := [1]];
    D4Laid();
    BidLone(D4, 40, two, 9901, none, NUM_LEVELS, 3, 9960);
    AmendLast(D5, 3, two, 9901, none, NUM_LEVELS, 4, 9960, NUM_LEVELS);
    AskStep(D6, 60, two, none, NUM_LEVELS, 4);
    PutLone(none, 59, 4);
  }

  /** Amending the bid at 99 away makes the re-scan start at the top and find the bid at 100. */
  lemma D9Laid()
    ensures Laid(Run(D9), true, map[9900 := [0]][9999 := [5]], 9900, map[59 := [4]], 59, 6, FIVE)
  {
    hide Laid, Run, Bid, Ask, AmendAway;
    D7Laid();
    AmendLast(D7, 1, map[9900 := [0]], NUM_LEVELS, map[59 := [4]], 59, 5, 9901, 9900);
    BidLone(D8, 1, map[9900 := [0]], 9900, map[59 := [4]], 59, 5, 9999);
  }

  /** At the end of the last submission the cached best bid is 100 and the cached best ask is 60. */
  lemma AssertionFails()
    ensures D9[|D9| - 1] == Bid(1) && Accepted(Bid(1)) && !CachedUncrossed(Run(D9)) && !KeepsApart(Run(D8), Bid(1))
  {
    hide Run, BookOk, QueueLaid, Apply, KeepsApart;
    D9Laid();
    RunStep(D8, Bid(1));
    SubmitAsserts(Run(D8), Bid(1));
  }

  // ----- A run on which a total wraps -----

  const HALF: u32 := 0x8000_0000

  function HalfBid(price: int): Command {
    Submit(price, HALF, true, 1, 0)
  }

  const E1: seq<Command> := [] + [HalfBid(100)]
  const E2: seq<Command> := E1 + [HalfBid(50)]
  const E3: seq<Command> := E2 + [HalfBid(50)]
  const E4: seq<Command> := E3 + [Cancel(1, 0, 0)]

  lemma HalfBidStep(cs: seq<Command>, price: int, own: Layout, best: nat, n: nat, r: nat)
    requires Laid(Run(cs), true, own, best, map[], NUM_LEVELS, n, HALF) && n < MAX_ORDERS
    requires MINIMUM_BID <= price <= MAXIMUM_ASK && r == NUM_LEVELS - 1 - (price - MINIMUM_BID)
    ensures Laid(Run(cs + [HalfBid(price)]), true, Put(own, r, n), Improved(best, r), map[], NUM_LEVELS, n + 1, HALF)
  {
    hide Laid, Run, Apply, Put;
    RunStep(cs, HalfBid(price));
    Submitted(Run(cs), HalfBid(price), own, best, map[], NUM_LEVELS, n, HALF);
  }

  lemma E2Laid()
    ensures Laid(Run(E2), true, map[9900 := [0]][9950 := [1]], 9900, map[], NUM_LEVELS, 2, HALF)
  {
    hide Laid, Run, Put, HalfBid;
    var none: Layout := map[];
    LaidEmpty(HALF);
    HalfBidStep([], 100, none, NUM_LEVELS, 0, 9900);
    PutLone(none, 9900, 0);
    HalfBidStep(E1, 50, none[9900 := [0]], 9900, 1, 9950);
    PutLone(none[9900 := [0]], 9950, 1);
  }

  /** A bid at 100, and two of half of 2^32 units each at 50. */
  lemma E3Laid()
    ensures Laid(Run(E3), true, map[9900 := [0]][9950 := [1, 2]], 9900, map[], NUM_LEVELS, 3, HALF)
  {
    hide Laid, Run, Put, HalfBid;
    E2Laid();
    HalfBidStep(E2, 50, map[9900 := [0]][9950 := [1]], 9900, 2, 9950);
    PutSecond(map[9900 := [0]], 9950, 1, 2);
  }

  lemma PutSecond(layout: Layout, r: nat, first: u32, second: u32)
    ensures Put(layout[r := [first]], r, second) == layout[r := [first, second]]
  {
    assert [first] + [second] == [first, second];
  }

  lemma PairTotal(q: seq<Order>)
    requires |q| == 2 && q[0].remaining == q[1].remaining == HALF
    ensures Total(q) == 0
  {
    assert q == [q[0]] + [q[1]];
    SumRemainingConcat([q[0]], [q[1]]);
    assert SumRemaining([q[0]]) == HALF + SumRemaining([]) && SumRemaining([q[1]]) == HALF + SumRemaining([]);
  }

  /** Cancelling the bid at 100 hides the bids at 50: their 32-bit total is 0, and the re-scan passes
      them. No request of this run is an amendment. */
  lemma WrapHidesBids()
    ensures Exact(Run(E3)) && !Exact(Run(E4))
  {
    hide Run, Apply, BookOk, Lookup;
    var own: Layout := map[9900 := [0]][9950 := [1, 2]];
    var b := Run(E3);
    E3Laid();
    LaidExact(b, own, 9900, map[], NUM_LEVELS, 3, HALF);
    LookupLaid(b, own, 9900, map[], NUM_LEVELS, 3, HALF, 0, 9900);
    assert QueueLaid(b.bids.isBid, b.ids, b.bids.queues[9900], [0], HALF);
    assert QueueLaid(b.bids.isBid, b.ids, b.bids.queues[9950], [1, 2], HALF);
    PairTotal(b.bids.queues[9950]);
    forall i | 9901 <= i < 9950 ensures Total(b.bids.queues[i]) == 0 {
      assert QueueLaid(b.bids.isBid, b.ids, b.bids.queues[i], [], HALF);
    }
    assert NoneShown(b.bids.queues, 9901, 9950);
    assert Veiled(b.bids);
    assert Hides(b, Cancel(1, 0, 0));
    ApplyKeepsBest(b, Cancel(1, 0, 0));
    RunStep(E3, Cancel(1, 0, 0));
  }
}
