/** The order book in place: fixed arrays of pool slots and price levels, an intrusive free list,
    a handle table and an id map, each method proved to compute the model operation. */
module OrderBooks {
  import opened Types
  import opened Matching
  import opened BookModel
  import opened Links
  import opened MarketData

  /** An entry of the handle table: a null pointer or a pointer to a slot of one side's pool. */
  datatype OrderRef = Null | Slot(isBid: bool, handle: nat)

  /** The entries of one side point to exactly the slots in use. */
  ghost predicate HandlesOk(table: seq<OrderRef>, isBid: bool, home: map<nat, nat>) {
    && |table| == 2 * MAX_ORDERS
    && forall h :: 0 <= h < MAX_ORDERS ==> table[Encode(h, isBid)] == if h in home then Slot(isBid, h) else Null
  }

  ghost predicate OtherSideKept(table: seq<OrderRef>, table': seq<OrderRef>, isBid: bool) {
    && |table'| == |table|
    && forall e :: 0 <= e < |table| && (e % 2 == 0) != isBid ==> table'[e] == table[e]
  }

  lemma HandlesKept(table: seq<OrderRef>, table': seq<OrderRef>, isBid: bool, home: map<nat, nat>)
    requires OtherSideKept(table, table', isBid) && HandlesOk(table, !isBid, home)
    ensures HandlesOk(table', !isBid, home)
  {
  }

  lemma HandlesSet(table: seq<OrderRef>, isBid: bool, home: map<nat, nat>, home': map<nat, nat>, h: nat)
    requires HandlesOk(table, isBid, home) && h < MAX_ORDERS
    requires home.Keys - {h} == home'.Keys - {h}
    ensures var table' := table[Encode(h, isBid) := if h in home' then Slot(isBid, h) else Null];
            HandlesOk(table', isBid, home') && OtherSideKept(table, table', isBid)
  {
    forall x | 0 <= x < MAX_ORDERS && x != h ensures x in home <==> x in home' {
      assert x in home.Keys - {h} <==> x in home'.Keys - {h};
    }
  }

  lemma EmptyHandles(table: seq<OrderRef>)
    requires |table| == 2 * MAX_ORDERS && forall e :: 0 <= e < |table| ==> table[e] == Null
    ensures HandlesOk(table, true, EmptySide(true).home) && HandlesOk(table, false, EmptySide(false).home)
  {
  }

  /** The freshly built arrays hold the empty side. */
  lemma EmptyRepresents(pool: seq<Node>, levels: seq<PriceLevel>, isBid: bool)
    requires |pool| == MAX_ORDERS && |levels| == NUM_LEVELS
    requires forall j :: 0 <= j < NUM_LEVELS ==> levels[j] == PriceLevel(NULL, NULL, 0, MINIMUM_BID + j, j)
    requires forall j :: 0 <= j < MAX_ORDERS ==>
               pool[j].next == (if j + 1 < MAX_ORDERS then j + 1 else NULL) && pool[j].order.handle == j
    ensures Represents(pool, 0, levels, EmptySide(isBid))
  {
    var s := EmptySide(isBid);
    assert ChainsOk(pool, levels, isBid, s.queues);
    assert LevelsOk(levels, isBid, s.queues);
    assert FreeChain(pool, 0, s.free);
  }

  /** Taking a slot off the free list first does not change what an insertion writes. */
  lemma AppendedAt(p: seq<Node>, p': seq<Node>, last: int, o: Order)
    requires o.handle < |p| && Appended(LinkNext(p, o.handle, NULL), p', last, o)
    ensures Appended(p, p', last, o)
  {
  }

  lemma LevelsRelinked(levels: seq<PriceLevel>, levels': seq<PriceLevel>, isBid: bool, queues: seq<seq<Order>>)
    requires LevelsOk(levels, isBid, queues) && |levels'| == |levels|
    requires forall i :: 0 <= i < |levels| ==>
               levels'[i].total == levels[i].total && levels'[i].price == levels[i].price
                   && levels'[i].idx == levels[i].idx
    ensures LevelsOk(levels', isBid, queues)
  {
  }

  lemma ReleasedAfterTrade(p: seq<Node>, traded: seq<Node>, p': seq<Node>, h: nat, nextFree: int)
    requires h < |p| == |traded| && traded == p[h := p[h].(order := traded[h].order)]
             && Released(traded, p', h, nextFree)
    ensures Released(p, p', h, nextFree)
  {
  }

  /** What popping the head of the best level needs to know about the memory, once the level's
      total has been reduced by the head's remaining quantity. */
  lemma RepresentsPop(p: seq<Node>, nextFree: int, levels: seq<PriceLevel>, s: Side, total: u32)
    requires SideOk(s) && Represents(p, nextFree, levels, s) && s.best < NUM_LEVELS
    requires total == Wrap(levels[Mirror(s.isBid, s.best)].total - s.queues[s.best][0].remaining)
    ensures var l := Mirror(s.isBid, s.best);
            var h := levels[l].first;
            && 0 <= h < MAX_ORDERS && p[h].previous == NULL && p[h].next != h
            && (p[h].next == NULL || 0 <= p[h].next < MAX_ORDERS)
            && (p[h].next == NULL <==> |s.queues[s.best]| == 1)
            && LevelsOk(levels[l := levels[l].(total := total)], s.isBid, RemoveAt(s, s.best, 0).queues)
  {
    hide QueuesOk, HomeOk, FreeOk, QueueOk, FreeChain, ChainsOk, HandlesFixed;
    var r := s.best;
    var l := Mirror(s.isBid, r);
    var q := s.queues[r];
    Shown(p, nextFree, levels, s, r, 0);
    NeighboursHome(p, levels, s, r, 0);
    SumRemainingRemove(q, 0);
    TotalsChange(levels, levels[l := levels[l].(total := total)], s.isBid, s.queues, r, Without(q, 0),
                 0 - q[0].remaining);
  }

  /** `done` is the part of the snapshot before rank r. */
  ghost predicate Quoting(s: Side, done: seq<Quote>, r: nat) {
    && |s.queues| == NUM_LEVELS
    && |done| <= SNAPSHOT_DEPTH
    && Snapshot(s) == done + Visible(s, r, SNAPSHOT_DEPTH - |done|)
  }

  lemma QuotingStart(s: Side)
    requires SideOk(s)
    ensures Quoting(s, [], s.best)
  {
    hide Visible;
    SideLength(s);
    assert [] + Snapshot(s) == Snapshot(s);
  }

  lemma QuotingStep(s: Side, done: seq<Quote>, r: nat)
    requires Quoting(s, done, r) && r < NUM_LEVELS && |done| < SNAPSHOT_DEPTH
    ensures Total(s.queues[r]) > 0 ==> Quoting(s, done + [Quote(PriceOf(s.isBid, r), Total(s.queues[r]))], r + 1)
    ensures Total(s.queues[r]) == 0 ==> Quoting(s, done, r + 1)
  {
    hide Visible;
    VisibleStep(s, r, SNAPSHOT_DEPTH - |done|);
    var q, rest := Quote(PriceOf(s.isBid, r), Total(s.queues[r])), Visible(s, r + 1, SNAPSHOT_DEPTH - |done| - 1);
    assert done + ([q] + rest) == (done + [q]) + rest;
  }

  lemma QuotingEnd(s: Side, done: seq<Quote>, r: nat)
    requires Quoting(s, done, r) && (r >= NUM_LEVELS || |done| == SNAPSHOT_DEPTH)
    ensures Snapshot(s) == done
  {
    hide Visible, Snapshot;
    VisibleEnd(s, r, SNAPSHOT_DEPTH - |done|);
  }

  lemma VisibleStep(s: Side, r: nat, depth: nat)
    requires |s.queues| == NUM_LEVELS && r < NUM_LEVELS && 0 < depth
    ensures Visible(s, r, depth) ==
            if Total(s.queues[r]) > 0
            then [Quote(PriceOf(s.isBid, r), Total(s.queues[r]))] + Visible(s, r + 1, depth - 1)
            else Visible(s, r + 1, depth)
  {
  }

  lemma VisibleEnd(s: Side, r: nat, depth: nat)
    requires |s.queues| == NUM_LEVELS && (r >= NUM_LEVELS || depth == 0)
    ensures Visible(s, r, depth) == []
  {
  }

  lemma BestShown(p: seq<Node>, nextFree: int, levels: seq<PriceLevel>, s: Side)
    requires SideOk(s) && Represents(p, nextFree, levels, s) && s.best < NUM_LEVELS && |levels| == NUM_LEVELS
    ensures levels[Mirror(s.isBid, s.best)].price == PriceOf(s.isBid, s.best)
    ensures levels[Mirror(s.isBid, s.best)].first != NULL
  {
  }

  /** Matching so far made the callbacks `events`, and m is what is still to come. */
  ghost predicate Continues(whole: Matched, events: seq<Event>, m: Matched) {
    whole.side == m.side && whole.ids == m.ids && whole.left == m.left && whole.events == events + m.events
  }

  lemma ContinuesStep(whole: Matched, events: seq<Event>, s: Side, ids: map<u32, nat>, limit: int, taker: Taker,
                      qty: nat)
    requires SideOk(s) && qty <= taker.total && CanMatch(s, limit, qty)
    requires Continues(whole, events, MatchSide(s, ids, limit, taker, qty))
    ensures var m := MatchOne(s, ids, taker, qty);
            Continues(whole, events + m.events, MatchSide(m.side, m.ids, limit, taker, m.left))
  {
    hide SideOk, MatchOne;
    var m := MatchOne(s, ids, taker, qty);
    var n := MatchSide(m.side, m.ids, limit, taker, m.left);
    assert events + (m.events + n.events) == events + m.events + n.events;
  }

  lemma ContinuesTrade(whole: Matched, events: seq<Event>, trade: Event, pending: seq<Event>, m: Matched)
    requires Continues(whole, events + ([trade] + pending), m)
    ensures Continues(whole, (events + [trade]) + pending, m)
  {
    assert events + ([trade] + pending) == (events + [trade]) + pending;
  }

  lemma ContinuesDone(whole: Matched, events: seq<Event>, s: Side, ids: map<u32, nat>, left: nat)
    requires Continues(whole, events, Matched(s, ids, [], [], left))
    ensures whole.side == s && whole.ids == ids && whole.left == left && whole.events == events
  {
  }

  lemma ContinuesStart(whole: Matched)
    ensures Continues(whole, [], whole)
  {
    assert [] + whole.events == whole.events;
  }

  lemma MatchSideDone(s: Side, ids: map<u32, nat>, limit: int, taker: Taker, qty: nat)
    requires SideOk(s) && qty <= taker.total && !CanMatch(s, limit, qty)
    ensures MatchSide(s, ids, limit, taker, qty) == Matched(s, ids, [], [], qty)
  {
  }

  /** Once an order's content is rewritten, the level totals are those of the queues in which an
      order with nothing remaining is already gone. */
  lemma ReducedLevels(p: seq<Node>, nextFree: int, levels: seq<PriceLevel>, s: Side, r: nat, k: nat, o: Order)
    requires r < |s.queues| == NUM_LEVELS == |levels| && k < |s.queues[r]|
    requires Represents(p, nextFree, levels, UpdateAt(s, r, k, o))
    ensures var t := if o.remaining == 0 then RemoveAt(s, r, k) else UpdateAt(s, r, k, o);
            && LevelsOk(levels, s.isBid, t.queues)
            && levels[Mirror(s.isBid, r)].total == Total(t.queues[r])
  {
    hide ChainsOk, FreeChain, HandlesFixed;
    SumRemainingUpdate(s.queues[r], k, o);
    SumRemainingRemove(s.queues[r], k);
  }

  /** Snapshot arrays: the quotes first, zeros behind them. */
  ghost predicate Written(prices: seq<int>, volumes: seq<u32>, qs: seq<Quote>) {
    && |prices| == |volumes| == SNAPSHOT_DEPTH >= |qs|
    && (forall i :: 0 <= i < |qs| ==> prices[i] == qs[i].price && volumes[i] == qs[i].volume)
    && (forall i :: |qs| <= i < SNAPSHOT_DEPTH ==> prices[i] == 0 && volumes[i] == 0)
  }

  function BestIndex(isBid: bool, best: nat): int {
    if best >= NUM_LEVELS then NUM_LEVELS else Mirror(isBid, best)
  }

  /** Append one quote to the arrays. */
  method PutQuote(prices: array<int>, volumes: array<u32>, depth: nat, price: int, volume: u32, ghost done: seq<Quote>)
    requires Written(prices[..], volumes[..], done) && depth == |done| < SNAPSHOT_DEPTH
    modifies prices, volumes
    ensures Written(prices[..], volumes[..], done + [Quote(price, volume)])
  {
    prices[depth] := price;
    volumes[depth] := volume;
  }

  class OrderBookSide {
    const isBid: bool
    const pool: array<Node>
    var nextFree: int
    const levels: array<PriceLevel>
    var bestPriceIndex: nat

    ghost var model: Side

    ghost predicate Valid()
      reads this, pool, levels
    {
      && pool.Length == MAX_ORDERS
      && levels.Length == NUM_LEVELS
      && model.isBid == isBid
      && SideOk(model)
      && Represents(pool[..], nextFree, levels[..], model)
      && bestPriceIndex == BestIndex(isBid, model.best)
    }

    constructor (isBid: bool)
      ensures Valid() && fresh(pool) && fresh(levels)
      ensures this.isBid == isBid && model == EmptySide(isBid)
    {
      this.isBid := isBid;
      this.pool := new Node[MAX_ORDERS];
      this.levels := new PriceLevel[NUM_LEVELS];
      this.nextFree := 0;
      this.bestPriceIndex := NUM_LEVELS;
      this.model := EmptySide(isBid);
      new;
      for i := 0 to NUM_LEVELS
        modifies levels
        invariant forall j :: 0 <= j < i ==> levels[j] == PriceLevel(NULL, NULL, 0, MINIMUM_BID + j, j)
      {
        levels[i] := PriceLevel(NULL, NULL, 0, MINIMUM_BID + i, i);
      }
      for i := 0 to MAX_ORDERS - 1
        modifies pool
        invariant forall j :: 0 <= j < i ==> pool[j].next == j + 1 && pool[j].order.handle == j
      {
        pool[i] := pool[i].(next := i + 1, order := pool[i].order.(handle := i));
      }
      var last := MAX_ORDERS - 1;
      pool[last] := pool[last].(next := NULL, order := pool[last].order.(handle := last));
      EmptySideOk(isBid);
      EmptyRepresents(pool[..], levels[..], isBid);
    }

    /** Take the first slot off the free list. */
    method Allocate() returns (h: int)
      requires FreeChain(pool[..], nextFree, model.free)
      modifies this`nextFree, pool
      ensures h == NULL <==> model.free == []
      ensures h == NULL ==> pool[..] == old(pool[..]) && nextFree == old(nextFree)
      ensures h != NULL ==>
                && h == old(nextFree) == model.free[0] < pool.Length
                && nextFree == old(pool[..])[h].next
                && pool[..] == LinkNext(old(pool[..]), h, NULL)
    {
      if nextFree == NULL {
        return NULL;
      }
      h := nextFree;
      nextFree := pool[nextFree].next;
      pool[h] := pool[h].(next := NULL);
    }

    /** Put a slot at the head of the free list. */
    method Deallocate(h: nat)
      requires h < pool.Length
      modifies this`nextFree, pool
      ensures nextFree == h
      ensures pool[..] == LinkNext(old(pool[..]), h, old(nextFree))
    {
      pool[h] := pool[h].(next := nextFree);
      nextFree := h;
    }

    method UpdateBestBidAfterEmpty(ghost s: Side)
      requires isBid && s.isBid && levels.Length == NUM_LEVELS && s.best <= NUM_LEVELS
      requires LevelsOk(levels[..], isBid, s.queues) && bestPriceIndex == BestIndex(isBid, s.best)
      modifies this`bestPriceIndex
      ensures bestPriceIndex == BestIndex(isBid, Rescan(s).best)
    {
      var i := bestPriceIndex;
      while i > 0
        invariant i <= NUM_LEVELS
        invariant ScanFrom(s.queues, ScanStart(s)) == ScanFrom(s.queues, NUM_LEVELS - i)
      {
        i := i - 1;
        assert levels[..][Mirror(isBid, NUM_LEVELS - 1 - i)] == levels[i];
        if levels[i].total > 0 {
          bestPriceIndex := i;
          return;
        }
      }
      bestPriceIndex := NUM_LEVELS;
    }

    method UpdateBestAskAfterEmpty(ghost s: Side)
      requires !isBid && !s.isBid && levels.Length == NUM_LEVELS && s.best <= NUM_LEVELS
      requires LevelsOk(levels[..], isBid, s.queues) && bestPriceIndex == BestIndex(isBid, s.best)
      modifies this`bestPriceIndex
      ensures bestPriceIndex == BestIndex(isBid, Rescan(s).best)
    {
      var i := bestPriceIndex + 1;
      while i < NUM_LEVELS
        invariant i <= NUM_LEVELS + 1
        invariant ScanFrom(s.queues, ScanStart(s)) == ScanFrom(s.queues, i)
      {
        assert levels[..][Mirror(isBid, i)] == levels[i];
        if levels[i].total > 0 {
          bestPriceIndex := i;
          return;
        }
        i := i + 1;
      }
      bestPriceIndex := NUM_LEVELS;
    }

    method UpdateBestAfterEmpty(ghost s: Side)
      requires s.isBid == isBid && levels.Length == NUM_LEVELS && s.best <= NUM_LEVELS
      requires LevelsOk(levels[..], isBid, s.queues) && bestPriceIndex == BestIndex(isBid, s.best)
      modifies this`bestPriceIndex
      ensures bestPriceIndex == BestIndex(isBid, Rescan(s).best)
    {
      if isBid {
        UpdateBestBidAfterEmpty(s);
      } else {
        UpdateBestAskAfterEmpty(s);
      }
    }

    method UpdateBestBidAfterOrder(idx: nat)
      modifies this`bestPriceIndex
      ensures bestPriceIndex == if old(bestPriceIndex) == NUM_LEVELS || idx > old(bestPriceIndex)
                                then idx else old(bestPriceIndex)
    {
      if bestPriceIndex == NUM_LEVELS || idx > bestPriceIndex {
        bestPriceIndex := idx;
      }
    }

    method UpdateBestAskAfterOrder(idx: nat)
      modifies this`bestPriceIndex
      ensures bestPriceIndex == if old(bestPriceIndex) == NUM_LEVELS || idx < old(bestPriceIndex)
                                then idx else old(bestPriceIndex)
    {
      if bestPriceIndex == NUM_LEVELS || idx < bestPriceIndex {
        bestPriceIndex := idx;
      }
    }

    /** Fill slot o.handle and link it behind the last order of a level. */
    method LinkLast(idx: nat, o: Order)
      requires idx < levels.Length && o.handle < pool.Length
      requires levels[idx].last != NULL ==> 0 <= levels[idx].last < pool.Length && levels[idx].last != o.handle
      modifies pool, levels
      ensures Appended(old(pool[..]), pool[..], old(levels[idx]).last, o)
      ensures var was := old(levels[..])[idx];
              levels[..] == old(levels[..])[idx := was.(first := if was.last == NULL then o.handle else was.first,
                                                        last := o.handle, total := Wrap(was.total + o.remaining))]
    {
      var last := levels[idx].last;
      pool[o.handle] := Node(NULL, last, o);
      if last != NULL {
        pool[last] := pool[last].(next := o.handle);
      } else {
        levels[idx] := levels[idx].(first := o.handle);
      }
      levels[idx] := levels[idx].(last := o.handle);
      levels[idx] := levels[idx].(total := Wrap(levels[idx].total + o.remaining));
    }

    method UpdateBestAfterOrder(idx: nat, ghost s: Side)
      requires idx < NUM_LEVELS && s.isBid == isBid && s.best <= NUM_LEVELS
               && bestPriceIndex == BestIndex(isBid, s.best)
      modifies this`bestPriceIndex
      ensures bestPriceIndex == BestIndex(isBid, Improve(s, Mirror(isBid, idx)).best)
    {
      if isBid {
        UpdateBestBidAfterOrder(idx);
      } else {
        UpdateBestAskAfterOrder(idx);
      }
    }

    /** Append a new order to the queue of its price, or report that the pool is full. */
    method AddOrder(price: int, quantity: u32, remaining: u32, orderId: u32, clientId: u32, request: u32)
      returns (h: int, events: seq<Event>)
      requires Valid() && MINIMUM_BID <= price <= MAXIMUM_ASK && 0 < remaining <= quantity
      modifies this, pool, levels
      ensures Valid()
      ensures old(model).free == [] ==>
                h == NULL && model == old(model) && events == [Error(clientId, request, BookFull)]
      ensures old(model).free != [] ==>
                var o := Order(old(model).free[0], clientId, orderId, price, quantity, remaining,
                               quantity - remaining, isBid);
                var r := RankOf(isBid, price);
                && h == o.handle < pool.Length
                && model == Added(old(model), r, o)
                && pool[h].order == o
                && events == [LevelUpdate(isBid, price, Total(model.queues[r]))]
    {
      hide SideOk, Slots, Represents, FreeChain, Appended;
      var idx := price - MINIMUM_BID;
      ghost var p0, levels0, r := pool[..], levels[..], RankOf(isBid, price);
      SideLength(model);
      ReadyToAdd(p0, nextFree, levels0, model, r);
      h := Allocate();
      if h == NULL {
        return NULL, [Error(clientId, request, BookFull)];
      }
      var o := Order(h, clientId, orderId, price, quantity, remaining, quantity - remaining, isBid);
      LinkLast(idx, o);
      AppendedAt(p0, pool[..], levels0[idx].last, o);
      RepresentsAdd(p0, pool[..], old(nextFree), levels0, model, r, o);
      AddedOk(model, r, o);
      SideLength(Added(model, r, o));
      ShownLevel(pool[..], nextFree, levels[..], Added(model, r, o), r);
      events := [LevelUpdate(isBid, levels[idx].price, levels[idx].total)];
      UpdateBestAfterOrder(idx, model);
      model := Added(model, r, o);
    }

    /** Unlink the filled order at the head of a level, re-scan the best price if the level is now
        empty, and free the slot. `s` is the side before the order leaves. */
    method PopFront(l: nat, ghost s: Side)
      requires SideOk(s) && s.isBid == isBid && s.best < NUM_LEVELS && l == Mirror(isBid, s.best) == bestPriceIndex
      requires pool.Length == MAX_ORDERS && levels.Length == NUM_LEVELS && HandlesFixed(pool[..])
      requires var h := levels[l].first;
               && 0 <= h < MAX_ORDERS && pool[h].previous == NULL && pool[h].next != h
               && (pool[h].next == NULL || 0 <= pool[h].next < MAX_ORDERS)
               && (pool[h].next == NULL <==> |s.queues[s.best]| == 1)
      requires LevelsOk(levels[..], isBid, RemoveAt(s, s.best, 0).queues)
      modifies this`nextFree, this`bestPriceIndex, pool, levels
      ensures Released(old(pool[..]), pool[..], old(levels[l].first), old(nextFree))
      ensures nextFree == old(levels[l].first)
      ensures var was := old(levels[..])[l];
              var n := old(pool[..])[was.first].next;
              levels[..] == old(levels[..])[l := was.(first := n, last := if n == NULL then NULL else was.last)]
      ensures bestPriceIndex == BestIndex(isBid, if |s.queues[s.best]| == 1 then Rescan(RemoveAt(s, s.best, 0)).best
                                          else s.best)
    {
      hide QueuesOk, HomeOk, FreeOk, QueueOk, LevelsOk, ScanFrom;
      var h := levels[l].first;
      var next := pool[h].next;
      ghost var was := levels[..];
      levels[l] := levels[l].(first := next);
      if next != NULL {
        pool[next] := pool[next].(previous := NULL);
      } else {
        levels[l] := levels[l].(last := NULL);
        LevelsRelinked(was, levels[..], isBid, RemoveAt(s, s.best, 0).queues);
        UpdateBestAfterEmpty(RemoveAt(s, s.best, 0));
      }
      Deallocate(h);
    }

    /** Drop the filled order at the head of the best level. `s`, `p` and `was` are the side and its
        memory before the order traded. */
    method RetireFront(l: nat, ghost s: Side, ghost p: seq<Node>, ghost was: seq<PriceLevel>)
      requires SideOk(s) && s.isBid == isBid && s.best < NUM_LEVELS && l == Mirror(isBid, s.best) == bestPriceIndex
      requires pool.Length == MAX_ORDERS && levels.Length == NUM_LEVELS
      requires Represents(p, nextFree, was, s) && |was| == NUM_LEVELS
      requires var o := s.queues[s.best][0];
               && o.handle < |p|
               && pool[o.handle].order.handle == o.handle
               && pool[..] == p[o.handle := p[o.handle].(order := pool[o.handle].order)]
               && levels[..] == was[l := was[l].(total := Wrap(was[l].total - o.remaining))]
      modifies this`nextFree, this`bestPriceIndex, pool, levels
      ensures Represents(pool[..], nextFree, levels[..], RemoveAt(s, s.best, 0))
      ensures bestPriceIndex == BestIndex(isBid, if |s.queues[s.best]| == 1 then Rescan(RemoveAt(s, s.best, 0)).best
                                          else s.best)
    {
      hide QueuesOk, HomeOk, FreeOk, ChainsOk, QueueOk, FreeChain, Released, Unlinked, LevelsOk, ScanFrom;
      ghost var r := s.best;
      ghost var traded := pool[..];
      Shown(p, nextFree, was, s, r, 0);
      RepresentsPop(p, nextFree, was, s, levels[l].total);
      ghost var h := levels[l].first;
      PopFront(l, s);
      assert levels[..] == was[l := was[l].(first := p[h].next, last := if p[h].next == NULL then NULL else was[l].last,
                                            total := Wrap(was[l].total - s.queues[r][0].remaining))];
      ReleasedAfterTrade(p, traded, pool[..], h, old(nextFree));
      RepresentsRemove(p, pool[..], old(nextFree), was, s, r, 0);
    }

    /** Execute one trade against the head of the best level, dropping the maker if it is filled. */
    method TradeFront(total: u32, left: u32, orderId: u32, clientId: u32, ghost ids: map<u32, nat>)
      returns (left': u32, trade: Event)
      requires Valid() && bestPriceIndex < NUM_LEVELS && 0 < left <= total
      modifies this, pool, levels
      ensures Valid()
      ensures var m := MatchOne(old(model), ids, Taker(clientId, orderId, total), left);
              var level := levels[old(bestPriceIndex)];
              && model == m.side && left' == m.left
              && m.events == [trade] + (if left' == 0 || level.first == NULL
                                        then [LevelUpdate(isBid, level.price, level.total)]
                                        else [])
      ensures levels[old(bestPriceIndex)].first != NULL ==> bestPriceIndex == old(bestPriceIndex)
    {
      hide QueuesOk, HomeOk, FreeOk, ChainsOk, QueueOk, FreeChain, MatchOne, LevelsOk, HandlesFixed, ScanFrom;
      var l := bestPriceIndex;
      ghost var s, p0, levels0, taker := model, pool[..], levels[..], Taker(clientId, orderId, total);
      Shown(p0, nextFree, levels0, s, s.best, 0);
      var h := levels[l].first;
      var maker := pool[h].order;
      var t := Min(maker.remaining, left);
      var after := Traded(maker, t);
      pool[h] := pool[h].(order := after);
      left' := left - t;
      levels[l] := levels[l].(total := Wrap(levels[l].total - t));
      trade := Trade(after, clientId, orderId, maker.price, total, total - left', t);
      if after.remaining == 0 {
        MatchOneWhole(s, ids, taker, left);
        RetireFront(l, s, p0, levels0);
      } else {
        MatchOnePart(s, ids, taker, left);
        RepresentsUpdate(p0, nextFree, levels0, s, s.best, 0, after);
      }
      model := MatchOne(s, ids, taker, left).side;
      assert Represents(pool[..], nextFree, levels[..], model);
      ShownLevel(pool[..], nextFree, levels[..], model, s.best);
    }

    /** The body of the inner matching loop: a trade, and for a filled maker the removal from the
        handle table and the id map. */
    method FillFront(total: u32, left: u32, orderId: u32, clientId: u32, table: array<OrderRef>, ids: map<u32, nat>)
      returns (left': u32, ids': map<u32, nat>, trade: Event)
      requires Valid() && bestPriceIndex < NUM_LEVELS && 0 < left <= total
      requires table.Length == 2 * MAX_ORDERS && HandlesOk(table[..], isBid, model.home)
      modifies this, pool, levels, table
      ensures Valid() && HandlesOk(table[..], isBid, model.home) && OtherSideKept(old(table[..]), table[..], isBid)
      ensures var m := MatchOne(old(model), ids, Taker(clientId, orderId, total), left);
              var level := levels[old(bestPriceIndex)];
              && model == m.side && ids' == m.ids && left' == m.left
              && m.events == [trade] + (if left' == 0 || level.first == NULL
                                        then [LevelUpdate(isBid, level.price, level.total)]
                                        else [])
      ensures levels[old(bestPriceIndex)].first != NULL ==> bestPriceIndex == old(bestPriceIndex)
    {
      hide SideOk, Represents, MatchOne, HandlesOk;
      ghost var s := model;
      MatchOneIndexes(s, ids, Taker(clientId, orderId, total), left);
      left', trade := TradeFront(total, left, orderId, clientId, ids);
      ids' := ids;
      if trade.maker.remaining == 0 {
        ids' := ids - {trade.maker.orderId};
        table[Encode(trade.maker.handle, isBid)] := Null;
        assert table[..] == old(table[..])[Encode(trade.maker.handle, isBid) := Null];
        HandlesSet(old(table[..]), isBid, s.home, model.home, trade.maker.handle);
      }
    }

    /** Bypass a queued slot, wherever it stands, and free it. */
    method Unlink(h: nat, l: nat)
      requires h < pool.Length && l < levels.Length && pool[h].order.handle == h
      requires pool[h].next == NULL || (0 <= pool[h].next < pool.Length && pool[h].next != h)
      requires pool[h].previous == NULL || (0 <= pool[h].previous < pool.Length && pool[h].previous != h)
      modifies this`nextFree, pool, levels
      ensures Released(old(pool[..]), pool[..], h, old(nextFree))
      ensures nextFree == h
      ensures var was := old(levels[..])[l];
              var n := old(pool[..])[h];
              levels[..] == old(levels[..])[l := was.(first := if n.previous == NULL then n.next else was.first,
                                                      last := if n.next == NULL then n.previous else was.last)]
    {
      if pool[h].previous != NULL {
        pool[pool[h].previous] := pool[pool[h].previous].(next := pool[h].next);
      } else {
        levels[l] := levels[l].(first := pool[h].next);
      }
      if pool[h].next != NULL {
        pool[pool[h].next] := pool[pool[h].next].(previous := pool[h].previous);
      } else {
        levels[l] := levels[l].(last := pool[h].previous);
      }
      Deallocate(h);
    }

    /** Unlink the order at r, k whose content was rewritten and whose level's total was reduced.
        `s`, `p` and `was` are the side and its memory before. */
    method UnlinkAt(h: nat, l: nat, ghost s: Side, ghost r: nat, ghost k: nat, ghost p: seq<Node>,
                    ghost was: seq<PriceLevel>)
      requires SideOk(s) && s.isBid == isBid && r < NUM_LEVELS && k < |s.queues[r]| && l == Mirror(isBid, r)
      requires pool.Length == MAX_ORDERS && levels.Length == NUM_LEVELS
      requires Represents(p, nextFree, was, s) && |was| == NUM_LEVELS && |p| == MAX_ORDERS
      requires h == s.queues[r][k].handle && h < MAX_ORDERS && pool[h].order.handle == h
      requires pool[..] == p[h := p[h].(order := pool[h].order)]
      requires levels[..] == was[l := was[l].(total := Wrap(was[l].total - s.queues[r][k].remaining))]
      modifies this`nextFree, pool, levels
      ensures Represents(pool[..], nextFree, levels[..], RemoveAt(s, r, k))
    {
      hide QueuesOk, HomeOk, FreeOk, ChainsOk, QueueOk, FreeChain, Released, Unlinked, LevelsOk;
      ghost var rewritten := pool[..];
      NeighboursHome(p, was, s, r, k);
      Unlink(h, l);
      assert levels[..] == was[l := was[l].(first := if p[h].previous == NULL then p[h].next else was[l].first,
                                            last := if p[h].next == NULL then p[h].previous else was[l].last,
                                            total := Wrap(was[l].total - s.queues[r][k].remaining))];
      ReleasedAfterTrade(p, rewritten, pool[..], h, old(nextFree));
      RepresentsRemove(p, pool[..], old(nextFree), was, s, r, k);
    }

    /** Take the order in slot h off the book. */
    method Withdraw(h: nat, ghost r: nat, ghost k: nat) returns (total: u32)
      requires Valid() && r < NUM_LEVELS && k < |model.queues[r]| && h == model.queues[r][k].handle
      modifies this, pool, levels
      ensures Valid() && model == CancelledSide(old(model), r, k)
      ensures total == Total(model.queues[r])
    {
      hide QueuesOk, HomeOk, FreeOk, ChainsOk, QueueOk, FreeChain, LevelsOk, HandlesFixed, ScanFrom;
      ghost var s, p, was := model, pool[..], levels[..];
      Shown(p, nextFree, was, s, r, k);
      var l := pool[h].order.price - MINIMUM_BID;
      levels[l] := levels[l].(total := Wrap(levels[l].total - pool[h].order.remaining));
      assert pool[..] == p[h := p[h].(order := pool[h].order)];
      UnlinkAt(h, l, s, r, k, p, was);
      RemoveOk(s, r, k);
      ghost var t := RemoveAt(s, r, k);
      ShownLevel(pool[..], nextFree, levels[..], t, r);
      if levels[l].first == NULL && bestPriceIndex == levels[l].idx {
        UpdateBestAfterEmpty(t);
      }
      total := levels[l].total;
      CancelledOk(s, r, k);
      model := CancelledSide(s, r, k);
      assert Represents(pool[..], nextFree, levels[..], model);
    }

    /** Lower the quantity of the order in slot h; it leaves the book when nothing remains. */
    method Reduce(h: nat, newQuantity: u32, ghost r: nat, ghost k: nat) returns (after: Order, total: u32)
      requires Valid() && r < NUM_LEVELS && k < |model.queues[r]| && h == model.queues[r][k].handle
      requires var o := model.queues[r][k]; o.cumulative <= newQuantity && newQuantity - o.cumulative < o.remaining
      modifies this, pool, levels
      ensures Valid()
      ensures after == Resized(old(model).queues[r][k], newQuantity)
      ensures model == ReducedSide(old(model), r, k, after)
      ensures total == Total(model.queues[r])
    {
      hide QueuesOk, HomeOk, FreeOk, ChainsOk, QueueOk, FreeChain, LevelsOk, HandlesFixed, ScanFrom;
      ghost var s, p, was := model, pool[..], levels[..];
      Shown(p, nextFree, was, s, r, k);
      var o := pool[h].order;
      var l := o.price - MINIMUM_BID;
      var remaining := newQuantity - o.cumulative;
      after := o.(quantity := newQuantity, remaining := remaining);
      pool[h] := pool[h].(order := after);
      levels[l] := levels[l].(total := Wrap(levels[l].total - (o.remaining - remaining)));
      total := levels[l].total;
      RepresentsUpdate(p, nextFree, was, s, r, k, after);
      ghost var t := if remaining == 0 then RemoveAt(s, r, k) else UpdateAt(s, r, k, after);
      ReducedLevels(pool[..], nextFree, levels[..], s, r, k, after);
      if total == 0 {
        UpdateBestAfterEmpty(t);
      }
      if remaining == 0 {
        UnlinkAt(h, l, s, r, k, p, was);
      }
      ReducedOk(s, r, k, after);
      model := ReducedSide(s, r, k, after);
      assert Represents(pool[..], nextFree, levels[..], model);
    }

    /** Write the best bid levels into zeroed arrays, walking down from the cached best. */
    method QuoteBids(prices: array<int>, volumes: array<u32>)
      requires Valid() && isBid && prices.Length == volumes.Length == SNAPSHOT_DEPTH
               && Written(prices[..], volumes[..], [])
      modifies prices, volumes
      ensures Written(prices[..], volumes[..], Snapshot(model))
    {
      hide SideOk, Represents, Written, Quoting, Snapshot;
      var idx, depth := bestPriceIndex, 0;
      ghost var done, r := [], model.best;
      SideLength(model);
      QuotingStart(model);
      while idx < NUM_LEVELS && depth < SNAPSHOT_DEPTH
        invariant depth == |done| <= SNAPSHOT_DEPTH && r <= NUM_LEVELS
        invariant r < NUM_LEVELS ==> idx == Mirror(true, r)
        invariant r == NUM_LEVELS ==> idx == NUM_LEVELS
        invariant Written(prices[..], volumes[..], done)
        invariant Quoting(model, done, r)
        decreases NUM_LEVELS - r
      {
        ShownLevel(pool[..], nextFree, levels[..], model, r);
        QuotingStep(model, done, r);
        if levels[idx].total > 0 {
          PutQuote(prices, volumes, depth, levels[idx].price, levels[idx].total, done);
          depth := depth + 1;
          done := done + [Quote(levels[idx].price, levels[idx].total)];
        }
        r := r + 1;
        if idx == 0 {
          break;
        }
        idx := idx - 1;
      }
      QuotingEnd(model, done, r);
    }

    /** Write the best ask levels into zeroed arrays, walking up from the cached best. */
    method QuoteAsks(prices: array<int>, volumes: array<u32>)
      requires Valid() && !isBid && prices.Length == volumes.Length == SNAPSHOT_DEPTH
               && Written(prices[..], volumes[..], [])
      modifies prices, volumes
      ensures Written(prices[..], volumes[..], Snapshot(model))
    {
      hide SideOk, Represents, Written, Quoting, Snapshot;
      var idx, depth := bestPriceIndex, 0;
      ghost var done := [];
      SideLength(model);
      QuotingStart(model);
      while idx < NUM_LEVELS && depth < SNAPSHOT_DEPTH
        invariant depth == |done| <= SNAPSHOT_DEPTH && idx <= NUM_LEVELS
        invariant Written(prices[..], volumes[..], done)
        invariant Quoting(model, done, idx)
      {
        ShownLevel(pool[..], nextFree, levels[..], model, idx);
        QuotingStep(model, done, idx);
        if levels[idx].total > 0 {
          PutQuote(prices, volumes, depth, levels[idx].price, levels[idx].total, done);
          depth := depth + 1;
          done := done + [Quote(levels[idx].price, levels[idx].total)];
        }
        idx := idx + 1;
      }
      QuotingEnd(model, done, idx);
    }

    /** Whether a resting price is acceptable to an incoming limit price. */
    predicate Crosses(levelPrice: int, incomingPrice: int) {
      if isBid then levelPrice >= incomingPrice else levelPrice <= incomingPrice
    }

    /** Match an incoming order against this side, best price first and first come first. */
    method MatchLoop(incomingPrice: int, incomingQuantity: u32, orderId: u32, clientId: u32, table: array<OrderRef>,
                     ids: map<u32, nat>)
      returns (left: u32, ids': map<u32, nat>, events: seq<Event>)
      requires Valid() && table.Length == 2 * MAX_ORDERS && HandlesOk(table[..], isBid, model.home)
      modifies this, pool, levels, table
      ensures Valid() && HandlesOk(table[..], isBid, model.home) && OtherSideKept(old(table[..]), table[..], isBid)
      ensures var m := MatchSide(old(model), ids, RankOf(isBid, incomingPrice),
                                 Taker(clientId, orderId, incomingQuantity), incomingQuantity);
              model == m.side && ids' == m.ids && left == m.left && events == m.events
    {
      hide SideOk, Represents, HandlesOk, MatchOne, MatchSide, Continues;
      ghost var limit, taker := RankOf(isBid, incomingPrice), Taker(clientId, orderId, incomingQuantity);
      ghost var whole := MatchSide(model, ids, limit, taker, incomingQuantity);
      left, ids', events := incomingQuantity, ids, [];
      ContinuesStart(whole);
      while left > 0
        invariant Valid() && HandlesOk(table[..], isBid, model.home) && OtherSideKept(old(table[..]), table[..], isBid)
        invariant left <= incomingQuantity
        invariant Continues(whole, events, MatchSide(model, ids', limit, taker, left))
        decreases left
      {
        var l := bestPriceIndex;
        if l == NUM_LEVELS {
          break;
        }
        BestShown(pool[..], nextFree, levels[..], model);
        if !Crosses(levels[l].price, incomingPrice) {
          break;
        }
        ghost var start := left;
        assert events + [] == events;
        while left > 0 && levels[l].first != NULL
          invariant Valid() && HandlesOk(table[..], isBid, model.home)
                    && OtherSideKept(old(table[..]), table[..], isBid)
          invariant left < start || (left == start && levels[l].first != NULL)
          invariant left > 0 && levels[l].first != NULL ==> bestPriceIndex == l && CanMatch(model, limit, left)
          invariant var pending := if left == 0 || levels[l].first == NULL
                                   then [LevelUpdate(isBid, levels[l].price, levels[l].total)] else [];
                    Continues(whole, events + pending, MatchSide(model, ids', limit, taker, left))
          decreases left
        {
          assert events + [] == events;
          ContinuesStep(whole, events, model, ids', limit, taker, left);
          var trade;
          left, ids', trade := FillFront(incomingQuantity, left, orderId, clientId, table, ids');
          ghost var pending := if left == 0 || levels[l].first == NULL
                               then [LevelUpdate(isBid, levels[l].price, levels[l].total)] else [];
          ContinuesTrade(whole, events, trade, pending, MatchSide(model, ids', limit, taker, left));
          events := events + [trade];
        }
        events := events + [LevelUpdate(isBid, levels[l].price, levels[l].total)];
      }
      MatchSideDone(model, ids', limit, taker, left);
      ContinuesDone(whole, events, model, ids', left);
    }
  }

  class OrderBook {
    const bids: OrderBookSide
    const asks: OrderBookSide
    const orderByHandle: array<OrderRef>
    var orderIdToHandle: map<u32, nat>
    var nextOrderId: u32

    ghost var accepted: nat

    ghost function Repr(): set<object> {
      {this, bids, bids.pool, bids.levels, asks, asks.pool, asks.levels, orderByHandle}
    }

    ghost function Model(): Book
      reads this, bids, asks
    {
      Book(bids.model, asks.model, orderIdToHandle, accepted)
    }

    ghost predicate Apart() {
      bids != asks && bids.pool != asks.pool && bids.levels != asks.levels && bids.isBid && !asks.isBid
    }

    ghost predicate Valid()
      reads Repr()
    {
      && Apart()
      && bids.Valid() && asks.Valid()
      && orderByHandle.Length == 2 * MAX_ORDERS
      && HandlesOk(orderByHandle[..], true, bids.model.home)
      && HandlesOk(orderByHandle[..], false, asks.model.home)
      && nextOrderId == Wrap(accepted)
      && BookOk(Model())
    }

    constructor ()
      ensures Valid() && fresh(Repr())
      ensures Model() == EmptyBook()
    {
      hide SideOk, Represents, IdsSide, HandlesOk, EmptySide;
      bids := new OrderBookSide(true);
      asks := new OrderBookSide(false);
      orderByHandle := new OrderRef[2 * MAX_ORDERS](_ => Null);
      orderIdToHandle := map[];
      nextOrderId := 0;
      accepted := 0;
      new;
      EmptyOk();
      EmptyHandles(orderByHandle[..]);
    }

    /** Give the incoming order its id and match it against the other side. */
    method MatchIncoming(price: int, quantity: u32, isBid: bool, clientId: u32) returns (left: u32, events: seq<Event>)
      requires Valid()
      modifies Repr()
      ensures Valid()
      ensures var m := BookModel.MatchIncoming(old(Model()), price, quantity, isBid, clientId);
              && Model() == AfterMatch(old(Model()), isBid, m)
              && left == m.left && events == m.events
    {
      hide SideOk, Represents, MatchSide, HandlesOk, IdsSide;
      ghost var b := Model();
      var orderId := nextOrderId;
      AfterMatchOk(b, price, quantity, isBid, clientId);
      nextOrderId := Wrap(nextOrderId + 1);
      accepted := accepted + 1;
      WrapNext(accepted);
      ghost var table := orderByHandle[..];
      if isBid {
        left, orderIdToHandle, events :=
              asks.MatchLoop(price, quantity, orderId, clientId, orderByHandle, orderIdToHandle);
        HandlesKept(table, orderByHandle[..], false, bids.model.home);
      } else {
        left, orderIdToHandle, events :=
              bids.MatchLoop(price, quantity, orderId, clientId, orderByHandle, orderIdToHandle);
        HandlesKept(table, orderByHandle[..], true, asks.model.home);
      }
    }

    /** Rest what is left of an order, and index it under its handle and id. */
    method RestOrder(price: int, quantity: u32, left: u32, isBid: bool, clientId: u32, request: u32, orderId: u32)
      returns (events: seq<Event>)
      requires Valid() && MINIMUM_BID <= price <= MAXIMUM_ASK && 0 < left <= quantity
      modifies Repr()
      ensures Valid()
      ensures var out := Rest(old(Model()),
                              Order(0, clientId, orderId, price, quantity, left, quantity - left, isBid), request);
              Model() == out.book && events == out.events
    {
      hide SideOk, Represents, HandlesOk, IdsSide, Added, LearnId;
      ghost var b := Model();
      ghost var o := Order(0, clientId, orderId, price, quantity, left, quantity - left, isBid);
      RestOk(b, o, request);
      var own := if isBid then bids else asks;
      var h;
      h, events := own.AddOrder(price, quantity, left, orderId, clientId, request);
      if h != NULL {
        events := events + [Inserted(request, own.pool[h].order)];
        ghost var s := SideOf(b, isBid);
        AddedHome(s, RankOf(isBid, price), o.(handle := h));
        Learn(own.pool[h].order, s.home, own.model.home, SideOf(b, !isBid).home);
      }
    }

    /** Index a new order of a side under its handle and, if its id is new, under its id. */
    method Learn(o: Order, ghost home: map<nat, nat>, ghost home': map<nat, nat>, ghost other: map<nat, nat>)
      requires o.handle < MAX_ORDERS && orderByHandle.Length == 2 * MAX_ORDERS
      requires HandlesOk(orderByHandle[..], o.isBid, home) && HandlesOk(orderByHandle[..], !o.isBid, other)
      requires home.Keys - {o.handle} == home'.Keys - {o.handle} && o.handle in home'
      modifies this`orderIdToHandle, orderByHandle
      ensures orderIdToHandle == LearnId(old(orderIdToHandle), o)
      ensures orderIdToHandle == if o.orderId in old(orderIdToHandle) then old(orderIdToHandle)
                                 else old(orderIdToHandle)[o.orderId := 2 * o.handle + if o.isBid then 0 else 1]
      ensures HandlesOk(orderByHandle[..], o.isBid, home') && HandlesOk(orderByHandle[..], !o.isBid, other)
    {
      hide HandlesOk;
      ghost var table := orderByHandle[..];
      orderByHandle[Encode(o.handle, o.isBid)] := Slot(o.isBid, o.handle);
      assert orderByHandle[..] == table[Encode(o.handle, o.isBid) := Slot(o.isBid, o.handle)];
      if o.orderId !in orderIdToHandle {
        orderIdToHandle := orderIdToHandle[o.orderId := Encode(o.handle, o.isBid)];
      }
      HandlesSet(table, o.isBid, home, home', o.handle);
      HandlesKept(table, orderByHandle[..], o.isBid, other);
    }

    /** Accept, match and possibly rest an order. */
    method SubmitOrder(price: int, quantity: u32, isBid: bool, clientId: u32, request: u32) returns (events: seq<Event>)
      requires Valid()
      modifies Repr()
      ensures Valid()
      ensures var out := BookModel.SubmitOrder(old(Model()), price, quantity, isBid, clientId, request);
              Model() == out.book && events == out.events
    {
      hide BookOk, SideOk, Represents, HandlesOk, BookModel.MatchIncoming, Rest;
      if quantity == 0 {
        return [Error(clientId, request, InvalidVolume)];
      }
      if price < MINIMUM_BID || price > MAXIMUM_ASK {
        return [Error(clientId, request, InvalidPrice)];
      }
      var orderId := nextOrderId;
      var left;
      left, events := MatchIncoming(price, quantity, isBid, clientId);
      if left > 0 {
        var more := RestOrder(price, quantity, left, isBid, clientId, request, orderId);
        events := events + more;
      }
    }

    /** Follow an id through the id map and the handle table. A mapped id never meets a null entry. */
    method FindOrder(id: u32) returns (ref: OrderRef)
      requires Valid()
      ensures ref == Null <==> Lookup(Model(), id) == Nowhere
      ensures ref.Slot? ==>
                var p := Lookup(Model(), id);
                var side := if ref.isBid then bids else asks;
                && ValidPlace(Model(), p) && p.isBid == ref.isBid
                && ref.handle < side.pool.Length
                && side.pool[ref.handle].order == OrderAt(Model(), p)
                && OrderAt(Model(), p).handle == ref.handle
                && OrderAt(Model(), p).orderId == id
                && OrderAt(Model(), p).isBid == ref.isBid
    {
      hide QueuesOk, HomeOk, FreeOk, ChainsOk, QueueOk, FreeChain, LevelsOk, HandlesFixed, Lookup, IdsOk;
      LookupFinds(Model(), id);
      if id !in orderIdToHandle {
        return Null;
      }
      ghost var p := Lookup(Model(), id);
      ghost var side := if p.isBid then bids else asks;
      Shown(side.pool[..], side.nextFree, side.levels[..], side.model, p.r, p.k);
      ref := orderByHandle[orderIdToHandle[id]];
    }

    /** Drop an order that has left its side from the handle table and the id map. */
    method Forget(ref: OrderRef, orderId: u32, ghost home: map<nat, nat>)
      requires ref.Slot? && ref.handle < MAX_ORDERS && orderByHandle.Length == 2 * MAX_ORDERS
      requires HandlesOk(orderByHandle[..], ref.isBid, home)
      modifies this`orderIdToHandle, orderByHandle
      ensures orderIdToHandle == old(orderIdToHandle) - {orderId}
      ensures HandlesOk(orderByHandle[..], ref.isBid, home - {ref.handle})
      ensures OtherSideKept(old(orderByHandle[..]), orderByHandle[..], ref.isBid)
    {
      hide HandlesOk;
      orderByHandle[Encode(ref.handle, ref.isBid)] := Null;
      orderIdToHandle := orderIdToHandle - {orderId};
      assert orderByHandle[..] == old(orderByHandle[..])[Encode(ref.handle, ref.isBid) := Null];
      HandlesSet(old(orderByHandle[..]), ref.isBid, home, home - {ref.handle}, ref.handle);
    }

    method CancelOrder(clientId: u32, request: u32, id: u32) returns (events: seq<Event>)
      requires Valid()
      modifies Repr()
      ensures Valid()
      ensures var out := BookModel.CancelOrder(old(Model()), clientId, request, id);
              Model() == out.book && events == out.events
    {
      hide SideOk, Represents, HandlesOk, IdsSide, Lookup, CancelledSide;
      ghost var b := Model();
      var ref := FindOrder(id);
      if ref == Null {
        return [Error(clientId, request, OrderNotFound)];
      }
      var side := if ref.isBid then bids else asks;
      var order := side.pool[ref.handle].order;
      if order.clientId != clientId {
        return [Error(clientId, request, Unauthorised)];
      }
      ghost var p := Lookup(b, id);
      CancelAtOk(b, p, request);
      RemovedHome(SideOf(b, p.isBid), p.r, p.k, order);
      var total := side.Withdraw(ref.handle, p.r, p.k);
      ghost var table := orderByHandle[..];
      Forget(ref, order.orderId, SideOf(b, p.isBid).home);
      HandlesKept(table, orderByHandle[..], ref.isBid, SideOf(b, !p.isBid).home);
      events := [LevelUpdate(order.isBid, order.price, total), Cancelled(request, order)];
    }

    method AmendOrder(clientId: u32, request: u32, id: u32, newQuantity: u32) returns (events: seq<Event>)
      requires Valid()
      modifies Repr()
      ensures Valid()
      ensures var out := BookModel.AmendOrder(old(Model()), clientId, request, id, newQuantity);
              Model() == out.book && events == out.events
    {
      hide SideOk, Represents, HandlesOk, IdsSide, Lookup, ReducedSide;
      ghost var b := Model();
      var ref := FindOrder(id);
      if ref == Null {
        return [Error(clientId, request, OrderNotFound)];
      }
      var side := if ref.isBid then bids else asks;
      var order := side.pool[ref.handle].order;
      if order.clientId != clientId {
        return [Error(clientId, request, Unauthorised)];
      }
      if newQuantity < order.cumulative || order.remaining < newQuantity - order.cumulative {
        return [Error(clientId, request, InvalidVolume)];
      }
      if newQuantity - order.cumulative == order.remaining {
        return [Amended(request, order.quantity, order)];
      }
      ghost var p := Lookup(b, id);
      ReduceAtOk(b, p, request, newQuantity);
      RemovedHome(SideOf(b, p.isBid), p.r, p.k, Resized(order, newQuantity));
      var after, total := side.Reduce(ref.handle, newQuantity, p.r, p.k);
      if after.remaining == 0 {
        ghost var table := orderByHandle[..];
        Forget(ref, order.orderId, SideOf(b, p.isBid).home);
        HandlesKept(table, orderByHandle[..], ref.isBid, SideOf(b, !p.isBid).home);
      }
      events := [Amended(request, order.quantity, after), LevelUpdate(order.isBid, order.price, total)];
    }

    /** The best levels of both sides, as the cached best prices show them. */
    method BuildSnapshot(bidVolumes: array<u32>, bidPrices: array<int>, askVolumes: array<u32>, askPrices: array<int>)
      requires Valid()
      requires bidVolumes.Length == bidPrices.Length == askVolumes.Length == askPrices.Length == SNAPSHOT_DEPTH
      requires bidVolumes != askVolumes && bidPrices != askPrices
      modifies bidVolumes, bidPrices, askVolumes, askPrices
      ensures Valid() && Model() == old(Model())
      ensures Written(bidPrices[..], bidVolumes[..], Snapshot(bids.model))
      ensures Written(askPrices[..], askVolumes[..], Snapshot(asks.model))
    {
      hide SideOk, Represents, HandlesOk, BookOk, Snapshot;
      for i := 0 to SNAPSHOT_DEPTH
        modifies bidVolumes, bidPrices, askVolumes, askPrices
        invariant forall j :: 0 <= j < i ==>
                    bidVolumes[j] == 0 && bidPrices[j] == 0 && askVolumes[j] == 0 && askPrices[j] == 0
      {
        bidVolumes[i], bidPrices[i], askVolumes[i], askPrices[i] := 0, 0, 0, 0;
      }
      bids.QuoteBids(bidPrices, bidVolumes);
      asks.QuoteAsks(askPrices, askVolumes);
    }
  }

  lemma WrapNext(n: int)
    ensures Wrap(Wrap(n - 1) + 1) == Wrap(n)
  {
  }
}
