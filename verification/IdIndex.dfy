/** The id map over runs of at most 2^32 accepted submissions: it knows every resting order, and
    ids increase along every queue. */
module IdIndex {
  import opened Types
  import opened Matching
  import opened BookModel

  /** Every order of the queue is younger than n, indexed under its own handle, and behind all
      orders with smaller ids. */
  predicate QueueIndexed(isBid: bool, ids: map<u32, nat>, n: nat, q: seq<Order>) {
    && (forall k :: 0 <= k < |q| ==>
          q[k].orderId < n && q[k].orderId in ids && ids[q[k].orderId] == Encode(q[k].handle, isBid))
    && (forall i, j :: 0 <= i < j < |q| ==> q[i].orderId < q[j].orderId)
  }

  predicate SideIndexed(s: Side, ids: map<u32, nat>, n: nat) {
    forall r :: 0 <= r < |s.queues| ==> QueueIndexed(s.isBid, ids, n, s.queues[r])
  }

  predicate Indexed(b: Book) {
    SideIndexed(b.bids, b.ids, b.accepted) && SideIndexed(b.asks, b.ids, b.accepted)
  }

  /** Forgetting an order of one side does not touch the entries of the other side. */
  lemma ForgetIndexed(t: Side, ids: map<u32, nat>, n: nat, gone: Order)
    requires SideIndexed(t, ids, n) && gone.orderId in ids && ids[gone.orderId] == Encode(gone.handle, !t.isBid)
    ensures SideIndexed(t, ids - {gone.orderId}, n)
  {
  }

  lemma QueueForget(isBid: bool, ids: map<u32, nat>, n: nat, q: seq<Order>, gone: u32)
    requires QueueIndexed(isBid, ids, n, q) && forall k :: 0 <= k < |q| ==> q[k].orderId != gone
    ensures QueueIndexed(isBid, ids - {gone}, n, q)
  {
  }

  lemma QueueWithout(isBid: bool, ids: map<u32, nat>, n: nat, q: seq<Order>, k: nat)
    requires QueueIndexed(isBid, ids, n, q) && k < |q|
    ensures QueueIndexed(isBid, ids - {q[k].orderId}, n, Without(q, k))
  {
    var q' := Without(q, k);
    forall j | 0 <= j < |q'| ensures q'[j] == q[if j >= k then j + 1 else j] {
    }
  }

  lemma RemoveIndexed(s: Side, t: Side, ids: map<u32, nat>, n: nat, r: nat, k: nat)
    requires Slots(s) && SideIndexed(s, ids, n) && SideIndexed(t, ids, n) && t.isBid != s.isBid
    requires r < NUM_LEVELS && k < |s.queues[r]|
    ensures SideIndexed(RemoveAt(s, r, k), ids - {s.queues[r][k].orderId}, n)
    ensures SideIndexed(t, ids - {s.queues[r][k].orderId}, n)
  {
    hide HomeOk, FreeOk, QueueOk;
    var gone := s.queues[r][k];
    var s' := RemoveAt(s, r, k);
    PlaceOk(s, r, k);
    assert QueueIndexed(s.isBid, ids, n, s.queues[r]);
    ForgetIndexed(t, ids, n, gone);
    QueueWithout(s.isBid, ids, n, s.queues[r], k);
    forall i | 0 <= i < |s.queues| && i != r ensures QueueIndexed(s.isBid, ids - {gone.orderId}, n, s'.queues[i]) {
      assert QueueIndexed(s.isBid, ids, n, s.queues[i]);
      forall j | 0 <= j < |s.queues[i]| ensures s.queues[i][j].orderId != gone.orderId {
        OtherHandle(s, i, j, r, k);
      }
      QueueForget(s.isBid, ids, n, s.queues[i], gone.orderId);
    }
  }

  lemma OtherHandle(s: Side, i: nat, j: nat, r: nat, k: nat)
    requires Slots(s) && i < NUM_LEVELS && r < NUM_LEVELS && j < |s.queues[i]| && k < |s.queues[r]| && i != r
    ensures s.queues[i][j].handle != s.queues[r][k].handle
  {
  }

  lemma UpdateIndexed(s: Side, ids: map<u32, nat>, n: nat, r: nat, k: nat, o: Order)
    requires SideIndexed(s, ids, n) && r < |s.queues| && k < |s.queues[r]|
    requires o.handle == s.queues[r][k].handle && o.orderId == s.queues[r][k].orderId
    ensures SideIndexed(UpdateAt(s, r, k, o), ids, n)
  {
  }

  lemma AddIndexed(s: Side, t: Side, ids: map<u32, nat>, n: nat, r: nat, o: Order)
    requires SideIndexed(s, ids, n) && SideIndexed(t, ids, n) && r < |s.queues| && s.free != []
    requires o.orderId == n && o.isBid == s.isBid && n !in ids
    ensures SideIndexed(Added(s, r, o), LearnId(ids, o), n + 1)
    ensures SideIndexed(t, LearnId(ids, o), n + 1)
  {
    var ids' := LearnId(ids, o);
    var s' := Added(s, r, o);
    forall i | 0 <= i < |t.queues| ensures QueueIndexed(t.isBid, ids', n + 1, t.queues[i]) {
      assert QueueIndexed(t.isBid, ids, n, t.queues[i]);
    }
    forall i | 0 <= i < |s'.queues| ensures QueueIndexed(s.isBid, ids', n + 1, s'.queues[i]) {
      assert QueueIndexed(s.isBid, ids, n, s.queues[i]);
    }
  }

  lemma AgeIndexed(s: Side, ids: map<u32, nat>, n: nat)
    requires SideIndexed(s, ids, n)
    ensures SideIndexed(s, ids, n + 1)
  {
  }

  lemma MatchOneIndexed(s: Side, t: Side, ids: map<u32, nat>, n: nat, taker: Taker, qty: nat)
    requires SideOk(s) && s.best < NUM_LEVELS && 0 < qty <= taker.total
    requires SideIndexed(s, ids, n) && SideIndexed(t, ids, n) && t.isBid != s.isBid
    ensures var m := MatchOne(s, ids, taker, qty);
            SideIndexed(m.side, m.ids, n) && SideIndexed(t, m.ids, n)
  {
    hide QueueIndexed, MatchOne, QueuesOk, HomeOk, FreeOk;
    var o := s.queues[s.best][0];
    if o.remaining <= qty {
      MatchOneWhole(s, ids, taker, qty);
      RemoveIndexed(s, t, ids, n, s.best, 0);
    } else {
      MatchOnePart(s, ids, taker, qty);
      UpdateIndexed(s, ids, n, s.best, 0, Traded(o, qty));
    }
  }

  lemma {:induction false} MatchIndexed(s: Side, t: Side, ids: map<u32, nat>, n: nat, limit: int, taker: Taker,
                                        qty: nat)
    requires SideOk(s) && qty <= taker.total
    requires SideIndexed(s, ids, n) && SideIndexed(t, ids, n) && t.isBid != s.isBid
    ensures var m := MatchSide(s, ids, limit, taker, qty);
            SideIndexed(m.side, m.ids, n) && SideIndexed(t, m.ids, n)
    decreases qty
  {
    hide SideIndexed, MatchOne, SideOk;
    if CanMatch(s, limit, qty) {
      var m := MatchOne(s, ids, taker, qty);
      MatchOneIndexed(s, t, ids, n, taker, qty);
      MatchIndexed(m.side, t, m.ids, n, limit, taker, m.left);
    }
  }

  /** Every id in the map was given out before. */
  lemma KnownIdsAreOld(b: Book, id: u32)
    requires BookOk(b) && Indexed(b) && id in b.ids
    ensures id < b.accepted
  {
  }

  lemma RestIndexed(b: Book, o: Order, request: u32)
    requires BookOk(b) && MINIMUM_BID <= o.price <= MAXIMUM_ASK && o.orderId == b.accepted - 1 && o.orderId !in b.ids
    requires SideIndexed(b.bids, b.ids, o.orderId) && SideIndexed(b.asks, b.ids, o.orderId)
    ensures Indexed(Rest(b, o, request).book)
  {
    hide SideIndexed, QueuesOk, HomeOk, FreeOk, IdsSide;
    var own := SideOf(b, o.isBid);
    if own.free == [] {
      AgeIndexed(b.bids, b.ids, o.orderId);
      AgeIndexed(b.asks, b.ids, o.orderId);
    } else {
      AddIndexed(own, SideOf(b, !o.isBid), b.ids, o.orderId, RankOf(o.isBid, o.price), o.(handle := own.free[0]));
    }
  }

  lemma SubmitIndexed(b: Book, price: int, quantity: u32, isBid: bool, client: u32, request: u32)
    requires BookOk(b) && Indexed(b) && b.accepted < U32
    ensures Indexed(SubmitOrder(b, price, quantity, isBid, client, request).book)
  {
    hide SideOk, IdsSide, SideIndexed, MatchSide, Rest;
    if 0 < quantity && MINIMUM_BID <= price <= MAXIMUM_ASK {
      var m := MatchIncoming(b, price, quantity, isBid, client);
      var s, t := SideOf(b, !isBid), SideOf(b, isBid);
      var limit, taker := RankOf(!isBid, price), Taker(client, Wrap(b.accepted), quantity);
      MatchIndexed(s, t, b.ids, b.accepted, limit, taker, quantity);
      MatchSideIds(s, b.ids, limit, taker, quantity);
      AfterMatchOk(b, price, quantity, isBid, client);
      if b.accepted in b.ids {
        KnownIdsAreOld(b, b.accepted);
      }
      if 0 < m.left {
        RestIndexed(AfterMatch(b, isBid, m), Incoming(b, price, quantity, m.left, isBid, client), request);
      } else {
        AgeIndexed(m.side, m.ids, b.accepted);
        AgeIndexed(t, m.ids, b.accepted);
      }
    }
  }

  lemma CancelIndexed(b: Book, client: u32, request: u32, id: u32)
    requires BookOk(b) && Indexed(b)
    ensures Indexed(CancelOrder(b, client, request, id).book)
  {
    hide QueueIndexed, QueuesOk, HomeOk, FreeOk, IdsSide, Lookup, ScanFrom;
    var p := Lookup(b, id);
    if p.At? {
      RemoveIndexed(SideOf(b, p.isBid), SideOf(b, !p.isBid), b.ids, b.accepted, p.r, p.k);
    }
  }

  lemma AmendIndexed(b: Book, client: u32, request: u32, id: u32, newQuantity: u32)
    requires BookOk(b) && Indexed(b)
    ensures Indexed(AmendOrder(b, client, request, id, newQuantity).book)
  {
    hide QueueIndexed, QueuesOk, HomeOk, FreeOk, IdsSide, Lookup, ScanFrom;
    var p := Lookup(b, id);
    if p.At? {
      var s := SideOf(b, p.isBid);
      RemoveIndexed(s, SideOf(b, !p.isBid), b.ids, b.accepted, p.r, p.k);
      if Amendable(OrderAt(b, p), newQuantity) {
        UpdateIndexed(s, b.ids, b.accepted, p.r, p.k, Resized(OrderAt(b, p), newQuantity));
      }
    }
  }

  lemma ApplyIndexed(b: Book, c: Command)
    requires BookOk(b) && Indexed(b) && Apply(b, c).book.accepted <= U32
    ensures Indexed(Apply(b, c).book)
  {
    hide BookOk, Indexed, SubmitOrder, CancelOrder, AmendOrder;
    match c
    case Submit(price, quantity, isBid, client, request) =>
      Counted(b, c);
      if b.accepted < U32 {
        SubmitIndexed(b, price, quantity, isBid, client, request);
      }
    case Cancel(client, request, id) => CancelIndexed(b, client, request, id);
    case Amend(client, request, id, newQuantity) => AmendIndexed(b, client, request, id, newQuantity);
  }

  /** Exactly the submissions with a positive quantity and a valid price receive an id; a rejected
      one changes nothing. */
  lemma Counted(b: Book, c: Command)
    requires BookOk(b)
    ensures Apply(b, c).book.accepted ==
            b.accepted + if Accepted(c) then 1 else 0
    ensures c.Submit? && Apply(b, c).book.accepted == b.accepted ==> Apply(b, c).book == b
  {
    hide SideOk, IdsSide, Lookup, MatchSide, ReducedSide, CancelledSide, Added;
  }

  /** On every run of at most 2^32 accepted submissions the id map and the handle table are
      mutually inverse with the resting orders, and ids increase along every queue. */
  lemma {:induction false} RunIndexed(cs: seq<Command>)
    requires Run(cs).accepted <= U32
    ensures Indexed(Run(cs))
  {
    hide BookOk, Apply;
    if cs == [] {
    } else {
      var prefix, c := cs[..|cs| - 1], cs[|cs| - 1];
      Counted(Run(prefix), c);
      RunIndexed(prefix);
      ApplyIndexed(Run(prefix), c);
    }
  }

  /** A resting order with this id, on either side. */
  predicate Rests(b: Book, id: u32) {
    exists isBid: bool, r, k :: 0 <= r < |SideOf(b, isBid).queues| && 0 <= k < |SideOf(b, isBid).queues[r]|
                                && SideOf(b, isBid).queues[r][k].orderId == id
  }

  /** Lookups succeed exactly for the ids of resting orders. */
  lemma LookupExact(cs: seq<Command>, id: u32)
    requires Run(cs).accepted <= U32
    ensures Lookup(Run(cs), id).At? <==> Rests(Run(cs), id)
  {
    hide QueuesOk, HomeOk, FreeOk, IdsSide, Lookup, Run;
    var b := Run(cs);
    RunIndexed(cs);
    LookupFinds(b, id);
    if Rests(b, id) {
      var isBid: bool, r, k :| 0 <= r < |SideOf(b, isBid).queues| && 0 <= k < |SideOf(b, isBid).queues[r]|
                               && SideOf(b, isBid).queues[r][k].orderId == id;
      assert QueueIndexed(SideOf(b, isBid).isBid, b.ids, b.accepted, SideOf(b, isBid).queues[r]);
    }
    if id in b.ids {
      var p := Lookup(b, id);
      assert SideOf(b, p.isBid).queues[p.r][p.k].orderId == id;
    }
  }
}
