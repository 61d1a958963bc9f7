/** The order book as a value: one FIFO queue per price, the pool's free list, the handle and id
    indexes and the cached best price, with the engine's operations as functions on it.

    A level is addressed by its *rank*: rank 0 is the best price of the side (the highest bid
    price, the lowest ask price), so both sides share one set of definitions. */
module BookModel {
  import opened Types
  import opened Matching

  /** `home` is the side's part of the handle table: the used slots, each with the rank of the
      order it points to. `best` is a rank, or NUM_LEVELS for "no best price". */
  datatype Side = Side(
    isBid: bool,
    queues: seq<seq<Order>>,
    free: seq<nat>,
    home: map<nat, nat>,
    best: nat)

  /** Level index of a rank, and rank of a level index: the map is its own inverse. */
  function Mirror(isBid: bool, r: int): int {
    if isBid then NUM_LEVELS - 1 - r else r
  }

  function PriceOf(isBid: bool, r: int): int {
    MINIMUM_BID + Mirror(isBid, r)
  }

  function RankOf(isBid: bool, price: int): int {
    Mirror(isBid, price - MINIMUM_BID)
  }

  function Total(q: seq<Order>): u32 {
    Wrap(SumRemaining(q))
  }

  // ----- Well-formedness -----

  predicate OrderOk(isBid: bool, home: map<nat, nat>, r: nat, o: Order) {
    && Sound(o)
    && o.isBid == isBid
    && o.price == PriceOf(isBid, r)
    && o.handle in home
    && home[o.handle] == r
  }

  predicate QueueOk(isBid: bool, home: map<nat, nat>, r: nat, q: seq<Order>) {
    && (forall k :: 0 <= k < |q| ==> OrderOk(isBid, home, r, q[k]))
    && (forall i, j :: 0 <= i < j < |q| ==> q[i].handle != q[j].handle)
  }

  predicate QueuesOk(isBid: bool, queues: seq<seq<Order>>, home: map<nat, nat>) {
    && |queues| == NUM_LEVELS
    && forall r :: 0 <= r < NUM_LEVELS ==> QueueOk(isBid, home, r, queues[r])
  }

  predicate HasHandle(q: seq<Order>, h: nat) {
    exists k :: 0 <= k < |q| && q[k].handle == h
  }

  /** Every used slot is in the queue the handle table leads to. */
  predicate HomeOk(queues: seq<seq<Order>>, home: map<nat, nat>) {
    && |queues| == NUM_LEVELS
    && forall h :: h in home ==> h < MAX_ORDERS && home[h] < NUM_LEVELS && HasHandle(queues[home[h]], h)
  }

  /** The free list holds each unused slot exactly once. */
  predicate FreeOk(free: seq<nat>, home: map<nat, nat>) {
    && (forall i :: 0 <= i < |free| ==> free[i] < MAX_ORDERS && free[i] !in home)
    && (forall i, j :: 0 <= i < j < |free| ==> free[i] != free[j])
    && (forall h :: 0 <= h < MAX_ORDERS && h !in home ==> h in free)
  }

  predicate BestOk(queues: seq<seq<Order>>, best: nat) {
    && |queues| == NUM_LEVELS
    && best <= NUM_LEVELS
    && (best < NUM_LEVELS ==> queues[best] != [])
  }

  predicate Slots(s: Side) {
    QueuesOk(s.isBid, s.queues, s.home) && HomeOk(s.queues, s.home) && FreeOk(s.free, s.home)
  }

  /** The invariant of one side on every run. */
  predicate SideOk(s: Side) {
    Slots(s) && BestOk(s.queues, s.best)
  }

  lemma SlotsLength(s: Side)
    requires Slots(s)
    ensures |s.queues| == NUM_LEVELS
  {
  }

  // ----- Primitive updates -----

  lemma PlaceOk(s: Side, r: nat, k: nat)
    requires Slots(s) && r < NUM_LEVELS && k < |s.queues[r]|
    ensures OrderOk(s.isBid, s.home, r, s.queues[r][k])
  {
  }

  function Without<T>(q: seq<T>, k: nat): seq<T>
    requires k < |q|
  {
    q[..k] + q[k + 1..]
  }

  function PushBack(s: Side, r: nat, o: Order): Side
    requires r < |s.queues| && s.free != []
  {
    s.(queues := s.queues[r := s.queues[r] + [o]], free := s.free[1..], home := s.home[o.handle := r])
  }

  function RemoveAt(s: Side, r: nat, k: nat): Side
    requires r < |s.queues| && k < |s.queues[r]|
  {
    var h := s.queues[r][k].handle;
    s.(queues := s.queues[r := Without(s.queues[r], k)], free := [h] + s.free, home := s.home - {h})
  }

  function UpdateAt(s: Side, r: nat, k: nat, o: Order): Side
    requires r < |s.queues| && k < |s.queues[r]|
  {
    s.(queues := s.queues[r := s.queues[r][k := o]])
  }

  lemma PushBackQueues(s: Side, r: nat, o: Order)
    requires Slots(s) && r < NUM_LEVELS && s.free != []
    requires Sound(o) && o.isBid == s.isBid && o.price == PriceOf(s.isBid, r) && o.handle == s.free[0]
    ensures var t := PushBack(s, r, o); QueuesOk(t.isBid, t.queues, t.home)
  {
    var t := PushBack(s, r, o);
    forall i | 0 <= i < NUM_LEVELS ensures QueueOk(t.isBid, t.home, i, t.queues[i]) {
      assert QueueOk(s.isBid, s.home, i, s.queues[i]);
      forall k | 0 <= k < |s.queues[i]| ensures s.queues[i][k].handle != o.handle {
        assert OrderOk(s.isBid, s.home, i, s.queues[i][k]);
      }
    }
  }

  lemma PushBackHome(s: Side, r: nat, o: Order)
    requires Slots(s) && r < NUM_LEVELS && s.free != [] && o.handle == s.free[0]
    ensures var t := PushBack(s, r, o); HomeOk(t.queues, t.home)
  {
    var t := PushBack(s, r, o);
    forall h | h in t.home
      ensures h < MAX_ORDERS && t.home[h] < NUM_LEVELS && HasHandle(t.queues[t.home[h]], h)
    {
      if h == o.handle {
        assert t.queues[r][|s.queues[r]|].handle == h;
      } else {
        var k :| 0 <= k < |s.queues[s.home[h]]| && s.queues[s.home[h]][k].handle == h;
        assert t.queues[t.home[h]][k].handle == h;
      }
    }
  }

  lemma PushBackFree(s: Side, r: nat, o: Order)
    requires Slots(s) && r < NUM_LEVELS && s.free != [] && o.handle == s.free[0]
    ensures var t := PushBack(s, r, o); FreeOk(t.free, t.home)
  {
  }

  lemma PushBackOk(s: Side, r: nat, o: Order)
    requires Slots(s) && r < NUM_LEVELS && s.free != []
    requires Sound(o) && o.isBid == s.isBid && o.price == PriceOf(s.isBid, r) && o.handle == s.free[0]
    ensures Slots(PushBack(s, r, o))
  {
    PushBackQueues(s, r, o);
    PushBackHome(s, r, o);
    PushBackFree(s, r, o);
  }

  lemma RemoveQueues(s: Side, r: nat, k: nat)
    requires Slots(s) && r < NUM_LEVELS && k < |s.queues[r]|
    ensures var t := RemoveAt(s, r, k); QueuesOk(t.isBid, t.queues, t.home)
  {
    var t := RemoveAt(s, r, k);
    var h := s.queues[r][k].handle;
    assert QueueOk(s.isBid, s.home, r, s.queues[r]);
    assert OrderOk(s.isBid, s.home, r, s.queues[r][k]);
    forall i | 0 <= i < NUM_LEVELS ensures QueueOk(t.isBid, t.home, i, t.queues[i]) {
      assert QueueOk(s.isBid, s.home, i, s.queues[i]);
      forall j | 0 <= j < |t.queues[i]| ensures OrderOk(t.isBid, t.home, i, t.queues[i][j]) {
        var j' := if i == r && j >= k then j + 1 else j;
        assert t.queues[i][j] == s.queues[i][j'];
        assert OrderOk(s.isBid, s.home, i, s.queues[i][j']);
      }
    }
  }

  lemma RemoveHome(s: Side, r: nat, k: nat)
    requires Slots(s) && r < NUM_LEVELS && k < |s.queues[r]|
    ensures var t := RemoveAt(s, r, k); HomeOk(t.queues, t.home)
  {
    var t := RemoveAt(s, r, k);
    forall h | h in t.home
      ensures h < MAX_ORDERS && t.home[h] < NUM_LEVELS && HasHandle(t.queues[t.home[h]], h)
    {
      var j :| 0 <= j < |s.queues[s.home[h]]| && s.queues[s.home[h]][j].handle == h;
      var j' := if s.home[h] == r && j > k then j - 1 else j;
      assert t.queues[t.home[h]][j'].handle == h;
    }
  }

  lemma RemoveFree(s: Side, r: nat, k: nat)
    requires Slots(s) && r < NUM_LEVELS && k < |s.queues[r]|
    ensures var t := RemoveAt(s, r, k); FreeOk(t.free, t.home)
  {
  }

  lemma RemoveOk(s: Side, r: nat, k: nat)
    requires Slots(s) && r < NUM_LEVELS && k < |s.queues[r]|
    ensures Slots(RemoveAt(s, r, k))
  {
    RemoveQueues(s, r, k);
    RemoveHome(s, r, k);
    RemoveFree(s, r, k);
  }

  lemma UpdateOk(s: Side, r: nat, k: nat, o: Order)
    requires Slots(s) && r < NUM_LEVELS && k < |s.queues[r]|
    requires Sound(o) && o.handle == s.queues[r][k].handle && o.isBid == s.isBid && o.price == PriceOf(s.isBid, r)
    ensures Slots(UpdateAt(s, r, k, o))
  {
    var t := UpdateAt(s, r, k, o);
    assert OrderOk(s.isBid, s.home, r, s.queues[r][k]) by {
      assert QueueOk(s.isBid, s.home, r, s.queues[r]);
    }
    forall i | 0 <= i < NUM_LEVELS ensures QueueOk(t.isBid, t.home, i, t.queues[i]) {
      assert QueueOk(s.isBid, s.home, i, s.queues[i]);
    }
    forall h | h in t.home
      ensures h < MAX_ORDERS && t.home[h] < NUM_LEVELS && HasHandle(t.queues[t.home[h]], h)
    {
      var j :| 0 <= j < |s.queues[s.home[h]]| && s.queues[s.home[h]][j].handle == h;
      assert t.queues[t.home[h]][j].handle == h;
    }
  }

  // ----- The cached best price -----

  /** First rank from r on whose 32-bit total is positive. */
  function ScanFrom(qs: seq<seq<Order>>, r: nat): (b: nat)
    requires |qs| == NUM_LEVELS
    ensures b <= NUM_LEVELS
    ensures b < NUM_LEVELS ==> r <= b && 0 < Total(qs[b]) && qs[b] != []
    ensures forall i :: r <= i < b ==> Total(qs[i]) == 0
    decreases NUM_LEVELS - r
  {
    if r >= NUM_LEVELS then NUM_LEVELS
    else if Total(qs[r]) > 0 then r
    else ScanFrom(qs, r + 1)
  }

  /** Where a re-scan starts: just behind the current best. With no best price the bid scan starts
      over from the top of the array, while the ask scan starts past its end. */
  function ScanStart(s: Side): nat {
    if s.best < NUM_LEVELS then s.best + 1
    else if s.isBid then 0
    else NUM_LEVELS
  }

  function Rescan(s: Side): Side
    requires |s.queues| == NUM_LEVELS
  {
    s.(best := ScanFrom(s.queues, ScanStart(s)))
  }

  function Improve(s: Side, r: nat): Side {
    if s.best == NUM_LEVELS || r < s.best then s.(best := r) else s
  }

  function Added(s: Side, r: nat, o: Order): Side
    requires r < |s.queues| && s.free != []
  {
    Improve(PushBack(s, r, o), r)
  }

  function CancelledSide(s: Side, r: nat, k: nat): Side
    requires |s.queues| == NUM_LEVELS && r < NUM_LEVELS && k < |s.queues[r]|
  {
    var t := RemoveAt(s, r, k);
    if t.queues[r] == [] && t.best == r then Rescan(t) else t
  }

  /** The order at r, k becomes o, or leaves when o has nothing remaining. The best price is
      re-scanned whenever the level's total becomes 0, whichever level that is. */
  function ReducedSide(s: Side, r: nat, k: nat, o: Order): Side
    requires |s.queues| == NUM_LEVELS && r < NUM_LEVELS && k < |s.queues[r]|
  {
    var t := if o.remaining == 0 then RemoveAt(s, r, k) else UpdateAt(s, r, k, o);
    if Total(t.queues[r]) == 0 then Rescan(t) else t
  }

  lemma AddedOk(s: Side, r: nat, o: Order)
    requires SideOk(s) && r < NUM_LEVELS && s.free != []
    requires Sound(o) && o.isBid == s.isBid && o.price == PriceOf(s.isBid, r) && o.handle == s.free[0]
    ensures SideOk(Added(s, r, o))
  {
    PushBackOk(s, r, o);
    assert PushBack(s, r, o).queues[r] != [];
  }

  lemma RemovedHome(s: Side, r: nat, k: nat, o: Order)
    requires SideOk(s) && r < NUM_LEVELS && k < |s.queues[r]|
    ensures CancelledSide(s, r, k).home == s.home - {s.queues[r][k].handle}
    ensures ReducedSide(s, r, k, o).home == if o.remaining == 0 then s.home - {s.queues[r][k].handle} else s.home
  {
  }

  lemma AddedHome(s: Side, r: nat, o: Order)
    requires SideOk(s) && r < NUM_LEVELS && s.free != []
    ensures Added(s, r, o).home == s.home[o.handle := r]
  {
  }

  lemma CancelledOk(s: Side, r: nat, k: nat)
    requires SideOk(s) && r < NUM_LEVELS && k < |s.queues[r]|
    ensures SideOk(CancelledSide(s, r, k))
  {
    RemoveOk(s, r, k);
  }

  lemma RescannedOk(s: Side, t: Side, r: nat)
    requires SideOk(s) && Slots(t) && t.best == s.best && r < NUM_LEVELS
    requires t.queues == s.queues[r := t.queues[r]]
    ensures SideOk(if Total(t.queues[r]) == 0 then Rescan(t) else t)
  {
  }

  lemma ReducedOk(s: Side, r: nat, k: nat, o: Order)
    requires SideOk(s) && r < NUM_LEVELS && k < |s.queues[r]|
    requires o.remaining != 0 ==> Sound(o)
    requires o.handle == s.queues[r][k].handle && o.isBid == s.isBid && o.price == PriceOf(s.isBid, r)
    ensures SideOk(ReducedSide(s, r, k, o))
  {
    if o.remaining == 0 {
      RemoveOk(s, r, k);
      RescannedOk(s, RemoveAt(s, r, k), r);
    } else {
      UpdateOk(s, r, k, o);
      RescannedOk(s, UpdateAt(s, r, k, o), r);
    }
  }

  // ----- Matching one incoming order against a side -----

  datatype Taker = Taker(client: u32, id: u32, total: u32)

  datatype Matched = Matched(side: Side, ids: map<u32, nat>, events: seq<Event>, fills: seq<Fill>, left: nat)

  predicate CanMatch(s: Side, limit: int, qty: nat) {
    0 < qty && s.best < NUM_LEVELS && s.best <= limit
  }

  /** One trade with the order at the head of the best level. The level update follows the last
      trade on a level. */
  function MatchOne(s: Side, ids: map<u32, nat>, taker: Taker, qty: nat): (m: Matched)
    requires SideOk(s) && s.best < NUM_LEVELS && 0 < qty <= taker.total
    ensures SideOk(m.side) && m.side.isBid == s.isBid && m.left < qty
  {
    var r := s.best;
    assert QueueOk(s.isBid, s.home, r, s.queues[r]);
    var o := s.queues[r][0];
    assert OrderOk(s.isBid, s.home, r, o);
    var t := Min(o.remaining, qty);
    var left := qty - t;
    var after := Traded(o, t);
    var trade := Trade(after, taker.client, taker.id, o.price, taker.total, taker.total - left, t);
    if t < o.remaining then
      UpdateOk(s, r, 0, after);
      var s1 := UpdateAt(s, r, 0, after);
      Matched(s1, ids, [trade, LevelUpdate(s.isBid, o.price, Total(s1.queues[r]))], [Fill(o, t)], left)
    else
      RemoveOk(s, r, 0);
      var s1 := RemoveAt(s, r, 0);
      var done := if s1.queues[r] == [] then Rescan(s1) else s1;
      var update := if left == 0 || s1.queues[r] == [] then [LevelUpdate(s.isBid, o.price, Total(s1.queues[r]))]
          else [];
      Matched(done, ids - {o.orderId}, [trade] + update, [Fill(o, t)], left)
  }

  lemma MatchOnePart(s: Side, ids: map<u32, nat>, taker: Taker, qty: nat)
    requires SideOk(s) && s.best < NUM_LEVELS && 0 < qty <= taker.total && qty < s.queues[s.best][0].remaining
    ensures Sound(s.queues[s.best][0])
    ensures var r := s.best;
            var o := s.queues[r][0];
            var t := UpdateAt(s, r, 0, Traded(o, qty));
            && MatchOne(s, ids, taker, qty) ==
               Matched(t, ids,
                       [Trade(Traded(o, qty), taker.client, taker.id, o.price, taker.total, taker.total, qty),
                        LevelUpdate(s.isBid, o.price, Total(t.queues[r]))],
                       [Fill(o, qty)], 0)
            && SideOk(t)
  {
    PlaceOk(s, s.best, 0);
  }

  lemma MatchOneWhole(s: Side, ids: map<u32, nat>, taker: Taker, qty: nat)
    requires SideOk(s) && s.best < NUM_LEVELS && s.queues[s.best][0].remaining <= qty && 0 < qty <= taker.total
    ensures Sound(s.queues[s.best][0])
    ensures var r := s.best;
            var o := s.queues[r][0];
            var t := RemoveAt(s, r, 0);
            var left := qty - o.remaining;
            var m := MatchOne(s, ids, taker, qty);
            && m.side == (if |s.queues[r]| == 1 then Rescan(t) else t)
            && m.ids == ids - {o.orderId}
            && m.left == left
            && m.fills == [Fill(o, o.remaining)]
            && m.events == [Trade(Traded(o, o.remaining), taker.client, taker.id, o.price, taker.total,
                                  taker.total - left, o.remaining)]
                           + (if left == 0 || |s.queues[r]| == 1
                              then [LevelUpdate(s.isBid, o.price, Total(t.queues[r]))] else [])
            && SideOk(m.side)
  {
    PlaceOk(s, s.best, 0);
  }

  /** A trade touches the indexes only when it fills the maker, and then only the maker's entries. */
  lemma MatchOneIndexes(s: Side, ids: map<u32, nat>, taker: Taker, qty: nat)
    requires SideOk(s) && s.best < NUM_LEVELS && 0 < qty <= taker.total
    ensures var m := MatchOne(s, ids, taker, qty);
            && |m.events| > 0 && m.events[0].Trade?
            && var maker := m.events[0].maker;
            && maker.handle < MAX_ORDERS
            && (maker.remaining == 0 ==> m.ids == ids - {maker.orderId} && m.side.home == s.home - {maker.handle})
            && (maker.remaining != 0 ==> m.ids == ids && m.side.home == s.home)
  {
    PlaceOk(s, s.best, 0);
    if s.queues[s.best][0].remaining <= qty {
      MatchOneWhole(s, ids, taker, qty);
    } else {
      MatchOnePart(s, ids, taker, qty);
    }
  }

  /** The matching loop. It ends because the best level always holds an order with something left. */
  function MatchSide(s: Side, ids: map<u32, nat>, limit: int, taker: Taker, qty: nat): (m: Matched)
    requires SideOk(s) && qty <= taker.total
    ensures SideOk(m.side) && m.side.isBid == s.isBid && m.left <= qty
    decreases qty
  {
    if !CanMatch(s, limit, qty) then Matched(s, ids, [], [], qty)
    else
      var m := MatchOne(s, ids, taker, qty);
      var n := MatchSide(m.side, m.ids, limit, taker, m.left);
      n.(events := m.events + n.events, fills := m.fills + n.fills)
  }

  // ----- The whole book -----

  /** `accepted` counts the submissions that received an id; ids are its value modulo 2^32. */
  datatype Book = Book(bids: Side, asks: Side, ids: map<u32, nat>, accepted: nat)

  datatype Command =
    | Submit(price: int, quantity: u32, isBid: bool, client: u32, request: u32)
    | Cancel(client: u32, request: u32, id: u32)
    | Amend(client: u32, request: u32, id: u32, newQuantity: u32)

  /** The submissions that receive an id. */
  predicate Accepted(c: Command) {
    c.Submit? && 0 < c.quantity && MINIMUM_BID <= c.price <= MAXIMUM_ASK
  }

  /** `dropped` is the residual of an order that found the pool full. */
  datatype Outcome = Outcome(book: Book, events: seq<Event>, dropped: nat)

  function Encode(h: nat, isBid: bool): (e: nat)
    ensures e % 2 == 0 <==> isBid
    ensures e / 2 == h
  {
    2 * h + (if isBid then 0 else 1)
  }

  function SideOf(b: Book, isBid: bool): Side {
    if isBid then b.bids else b.asks
  }

  function WithSide(b: Book, s: Side): Book {
    if s.isBid then b.(bids := s) else b.(asks := s)
  }

  /** Slot h holds the resting order with this id. */
  predicate Holds(queues: seq<seq<Order>>, home: map<nat, nat>, h: nat, id: u32) {
    && h in home
    && home[h] < |queues|
    && exists k :: 0 <= k < |queues[home[h]]| && queues[home[h]][k].handle == h && queues[home[h]][k].orderId == id
  }

  predicate IdsOk(isBid: bool, queues: seq<seq<Order>>, home: map<nat, nat>, ids: map<u32, nat>) {
    forall id :: id in ids && (ids[id] % 2 == 0) == isBid ==> Holds(queues, home, ids[id] / 2, id)
  }

  predicate IdsSide(s: Side, ids: map<u32, nat>) {
    IdsOk(s.isBid, s.queues, s.home, ids)
  }

  /** The invariant of the book on every run, id wrap-around included: every entry of the id map
      leads to a resting order with that id. */
  predicate BookOk(b: Book) {
    && SideOk(b.bids) && b.bids.isBid
    && SideOk(b.asks) && !b.asks.isBid
    && IdsSide(b.bids, b.ids)
    && IdsSide(b.asks, b.ids)
  }

  lemma SideLength(s: Side)
    requires SideOk(s)
    ensures |s.queues| == NUM_LEVELS && s.best <= NUM_LEVELS && Slots(s)
  {
  }

  lemma BookSides(b: Book)
    requires BookOk(b)
    ensures SideOk(b.bids) && b.bids.isBid && |b.bids.queues| == NUM_LEVELS
    ensures SideOk(b.asks) && !b.asks.isBid && |b.asks.queues| == NUM_LEVELS
  {
  }

  lemma PushBackIds(s: Side, ids: map<u32, nat>, r: nat, o: Order)
    requires Slots(s) && r < NUM_LEVELS && s.free != [] && o.handle == s.free[0] && IdsSide(s, ids)
    ensures IdsSide(PushBack(s, r, o), ids)
    ensures var t := PushBack(s, r, o); Holds(t.queues, t.home, o.handle, o.orderId)
  {
    var t := PushBack(s, r, o);
    forall id | id in ids && (ids[id] % 2 == 0) == t.isBid ensures Holds(t.queues, t.home, ids[id] / 2, id) {
      var h := ids[id] / 2;
      var k :| 0 <= k < |s.queues[s.home[h]]| && s.queues[s.home[h]][k].handle == h
          && s.queues[s.home[h]][k].orderId == id;
      assert t.queues[t.home[h]][k] == s.queues[s.home[h]][k];
    }
    assert t.queues[r][|s.queues[r]|] == o;
  }

  lemma RemoveIds(s: Side, ids: map<u32, nat>, r: nat, k: nat)
    requires Slots(s) && r < NUM_LEVELS && k < |s.queues[r]| && IdsSide(s, ids)
    ensures IdsSide(RemoveAt(s, r, k), ids - {s.queues[r][k].orderId})
  {
    hide QueuesOk, HomeOk, FreeOk, Holds;
    SlotsLength(s);
    var t := RemoveAt(s, r, k);
    var ids' := ids - {s.queues[r][k].orderId};
    forall id | id in ids' && (ids'[id] % 2 == 0) == t.isBid ensures Holds(t.queues, t.home, ids'[id] / 2, id) {
      assert Holds(s.queues, s.home, ids[id] / 2, id);
      StillHolds(s, r, k, ids[id] / 2, id);
    }
  }

  lemma StillHolds(s: Side, r: nat, k: nat, h: nat, id: u32)
    requires Slots(s) && r < NUM_LEVELS && k < |s.queues[r]| && Holds(s.queues, s.home, h, id)
    requires id != s.queues[r][k].orderId
    ensures Holds(RemoveAt(s, r, k).queues, RemoveAt(s, r, k).home, h, id)
  {
    hide HomeOk, FreeOk;
    var t := RemoveAt(s, r, k);
    var i := s.home[h];
    var j :| 0 <= j < |s.queues[i]| && s.queues[i][j].handle == h && s.queues[i][j].orderId == id;
    PlaceOk(s, r, k);
    assert QueueOk(s.isBid, s.home, r, s.queues[r]);
    assert h in t.home && t.home[h] == i;
    var j' := if i == r && j > k then j - 1 else j;
    assert t.queues[i][j'] == s.queues[i][j];
  }

  lemma UpdateIds(s: Side, ids: map<u32, nat>, r: nat, k: nat, o: Order)
    requires Slots(s) && r < NUM_LEVELS && k < |s.queues[r]| && IdsSide(s, ids)
    requires o.handle == s.queues[r][k].handle && o.orderId == s.queues[r][k].orderId
    ensures IdsSide(UpdateAt(s, r, k, o), ids)
  {
    var t := UpdateAt(s, r, k, o);
    forall id | id in ids && (ids[id] % 2 == 0) == t.isBid ensures Holds(t.queues, t.home, ids[id] / 2, id) {
      var h := ids[id] / 2;
      var j :| 0 <= j < |s.queues[s.home[h]]| && s.queues[s.home[h]][j].handle == h
          && s.queues[s.home[h]][j].orderId == id;
      assert t.queues[t.home[h]][j].handle == h && t.queues[t.home[h]][j].orderId == id;
    }
  }

  lemma MatchOneIds(s: Side, ids: map<u32, nat>, taker: Taker, qty: nat)
    requires SideOk(s) && s.best < NUM_LEVELS && 0 < qty <= taker.total && IdsSide(s, ids)
    ensures var m := MatchOne(s, ids, taker, qty);
            IdsSide(m.side, m.ids) && m.ids.Keys <= ids.Keys && forall id :: id in m.ids ==> m.ids[id] == ids[id]
  {
    var r := s.best;
    assert QueueOk(s.isBid, s.home, r, s.queues[r]);
    var o := s.queues[r][0];
    assert OrderOk(s.isBid, s.home, r, o);
    if qty < o.remaining {
      UpdateIds(s, ids, r, 0, Traded(o, qty));
    } else {
      RemoveIds(s, ids, r, 0);
    }
  }

  lemma {:induction false} MatchSideIds(s: Side, ids: map<u32, nat>, limit: int, taker: Taker, qty: nat)
    requires SideOk(s) && qty <= taker.total && IdsSide(s, ids)
    ensures var m := MatchSide(s, ids, limit, taker, qty);
            IdsSide(m.side, m.ids) && m.ids.Keys <= ids.Keys && forall id :: id in m.ids ==> m.ids[id] == ids[id]
    decreases qty
  {
    if CanMatch(s, limit, qty) {
      var m := MatchOne(s, ids, taker, qty);
      MatchOneIds(s, ids, taker, qty);
      MatchSideIds(m.side, m.ids, limit, taker, m.left);
    }
  }

  function IndexOf(q: seq<Order>, h: nat): (k: nat)
    requires HasHandle(q, h)
    ensures k < |q| && q[k].handle == h
    ensures forall j :: 0 <= j < k ==> q[j].handle != h
  {
    if q[0].handle == h then 0
    else
      assert HasHandle(q[1..], h) by {
        var k :| 0 <= k < |q| && q[k].handle == h;
        assert q[1..][k - 1].handle == h;
      }
      1 + IndexOf(q[1..], h)
  }

  /** Where an id leads: through the id map to a slot, through the slot to its level's queue. */
  datatype Place = Nowhere | At(isBid: bool, r: nat, k: nat)

  predicate ValidPlace(b: Book, p: Place) {
    p.At? && |SideOf(b, p.isBid).queues| == NUM_LEVELS && p.r < NUM_LEVELS && p.k < |SideOf(b, p.isBid).queues[p.r]|
  }

  function Lookup(b: Book, id: u32): (p: Place)
    requires BookOk(b)
    ensures p.At? ==> ValidPlace(b, p)
  {
    if id !in b.ids then Nowhere
    else
      var isBid := b.ids[id] % 2 == 0;
      var s := SideOf(b, isBid);
      var h := b.ids[id] / 2;
      if h !in s.home then Nowhere
      else At(isBid, s.home[h], IndexOf(s.queues[s.home[h]], h))
  }

  function OrderAt(b: Book, p: Place): Order
    requires p.At? && p.r < |SideOf(b, p.isBid).queues| && p.k < |SideOf(b, p.isBid).queues[p.r]|
  {
    SideOf(b, p.isBid).queues[p.r][p.k]
  }

  /** A mapped id always leads to a live order carrying that id, so the null-order branch and the
      failing side of the id assertion are never reached. */
  lemma LookupFinds(b: Book, id: u32)
    requires BookOk(b)
    ensures id in b.ids <==> Lookup(b, id).At?
    ensures id in b.ids ==>
              var p := Lookup(b, id);
              var o := OrderAt(b, p);
              && o.orderId == id
              && o.isBid == p.isBid
              && b.ids[id] == Encode(o.handle, o.isBid)
              && OrderOk(p.isBid, SideOf(b, p.isBid).home, p.r, o)
  {
    if id in b.ids {
      var s := SideOf(b, b.ids[id] % 2 == 0);
      var h := b.ids[id] / 2;
      assert Holds(s.queues, s.home, h, id);
      var q := s.queues[s.home[h]];
      assert QueueOk(s.isBid, s.home, s.home[h], q);
      var k :| 0 <= k < |q| && q[k].handle == h && q[k].orderId == id;
      assert k == IndexOf(q, h);
      assert OrderOk(s.isBid, s.home, s.home[h], q[k]);
    }
  }

  /** Replacing one side keeps the book's invariant if the id map only lost entries, or gained
      entries that lead into the new side. */
  lemma Assemble(b: Book, s: Side, ids: map<u32, nat>)
    requires BookOk(b) && SideOk(s) && IdsSide(s, ids)
    requires forall id :: id in ids && (ids[id] % 2 == 0) != s.isBid ==> id in b.ids && b.ids[id] == ids[id]
    ensures BookOk(WithSide(b, s).(ids := ids))
  {
  }

  // ----- The three requests -----

  /** Rest what is left of an accepted order, if the pool has a slot for it. */
  function Rest(b: Book, o: Order, request: u32): Outcome
    requires MINIMUM_BID <= o.price <= MAXIMUM_ASK && |SideOf(b, o.isBid).queues| == NUM_LEVELS
  {
    var own := SideOf(b, o.isBid);
    if own.free == [] then Outcome(b, [Error(o.clientId, request, BookFull)], o.remaining)
    else
      var r := RankOf(o.isBid, o.price);
      var o' := o.(handle := own.free[0]);
      var s := Added(own, r, o');
      Outcome(WithSide(b, s).(ids := LearnId(b.ids, o')),
              [LevelUpdate(o.isBid, o.price, Total(s.queues[r])), Inserted(request, o')], 0)
  }

  function LearnId(ids: map<u32, nat>, o: Order): (ids': map<u32, nat>)
    ensures forall id :: id in ids' && (ids'[id] % 2 == 0) != o.isBid ==> id in ids && ids[id] == ids'[id]
  {
    if o.orderId in ids then ids else ids[o.orderId := Encode(o.handle, o.isBid)]
  }

  lemma AddedIds(s: Side, ids: map<u32, nat>, r: nat, o: Order)
    requires SideOk(s) && IdsSide(s, ids) && r < NUM_LEVELS && s.free != [] && o.handle == s.free[0]
             && o.isBid == s.isBid
    ensures IdsSide(Added(s, r, o), LearnId(ids, o))
  {
    PushBackIds(s, ids, r, o);
  }

  lemma RestOk(b: Book, o: Order, request: u32)
    requires BookOk(b) && MINIMUM_BID <= o.price <= MAXIMUM_ASK && Sound(o)
    ensures BookOk(Rest(b, o, request).book)
  {
    var own := SideOf(b, o.isBid);
    if own.free != [] {
      var r := RankOf(o.isBid, o.price);
      var o' := o.(handle := own.free[0]);
      AddedOk(own, r, o');
      AddedIds(own, b.ids, r, o');
      Assemble(b, Added(own, r, o'), LearnId(b.ids, o'));
    }
  }

  /** The part of an incoming order that was not filled. */
  function Incoming(b: Book, price: int, quantity: u32, left: nat, isBid: bool, client: u32): Order
    requires left <= quantity
  {
    Order(0, client, Wrap(b.accepted), price, quantity, left, quantity - left, isBid)
  }

  function AfterMatch(b: Book, isBid: bool, m: Matched): Book {
    WithSide(b, m.side).(ids := m.ids, accepted := b.accepted + 1)
  }

  function MatchIncoming(b: Book, price: int, quantity: u32, isBid: bool, client: u32): (m: Matched)
    requires BookOk(b)
    ensures SideOk(m.side) && m.side.isBid == !isBid && m.left <= quantity
  {
    MatchSide(SideOf(b, !isBid), b.ids, RankOf(!isBid, price), Taker(client, Wrap(b.accepted), quantity), quantity)
  }

  lemma AfterMatchOk(b: Book, price: int, quantity: u32, isBid: bool, client: u32)
    requires BookOk(b)
    ensures BookOk(AfterMatch(b, isBid, MatchIncoming(b, price, quantity, isBid, client)))
  {
    MatchSideIds(SideOf(b, !isBid), b.ids, RankOf(!isBid, price), Taker(client, Wrap(b.accepted), quantity), quantity);
  }

  function SubmitOrder(b: Book, price: int, quantity: u32, isBid: bool, client: u32, request: u32): Outcome
    requires BookOk(b)
  {
    if quantity == 0 then Outcome(b, [Error(client, request, InvalidVolume)], 0)
    else if price < MINIMUM_BID || price > MAXIMUM_ASK then Outcome(b, [Error(client, request, InvalidPrice)], 0)
    else
      var m := MatchIncoming(b, price, quantity, isBid, client);
      var b1 := AfterMatch(b, isBid, m);
      AfterMatchOk(b, price, quantity, isBid, client);
      if m.left == 0 then Outcome(b1, m.events, 0)
      else
        var out := Rest(b1, Incoming(b, price, quantity, m.left, isBid, client), request);
        out.(events := m.events + out.events)
  }

  function CancelAt(b: Book, p: Place, request: u32): Outcome
    requires ValidPlace(b, p)
  {
    var o := OrderAt(b, p);
    var s := CancelledSide(SideOf(b, p.isBid), p.r, p.k);
    Outcome(WithSide(b, s).(ids := b.ids - {o.orderId}),
            [LevelUpdate(p.isBid, o.price, Total(s.queues[p.r])), Cancelled(request, o)], 0)
  }

  function CancelOrder(b: Book, client: u32, request: u32, id: u32): Outcome
    requires BookOk(b)
  {
    var p := Lookup(b, id);
    if p.Nowhere? then Outcome(b, [Error(client, request, OrderNotFound)], 0)
    else if OrderAt(b, p).clientId != client then Outcome(b, [Error(client, request, Unauthorised)], 0)
    else CancelAt(b, p, request)
  }

  function Resized(o: Order, newQuantity: u32): Order
    requires o.cumulative <= newQuantity
  {
    o.(quantity := newQuantity, remaining := newQuantity - o.cumulative)
  }

  /** Lower an order's quantity; it leaves the book when nothing remains. */
  function ReduceAt(b: Book, p: Place, request: u32, newQuantity: u32): Outcome
    requires ValidPlace(b, p) && OrderAt(b, p).cumulative <= newQuantity
  {
    var o := OrderAt(b, p);
    var o' := Resized(o, newQuantity);
    var s := ReducedSide(SideOf(b, p.isBid), p.r, p.k, o');
    Outcome(WithSide(b, s).(ids := if o'.remaining == 0 then b.ids - {o.orderId} else b.ids),
            [Amended(request, o.quantity, o'), LevelUpdate(p.isBid, o.price, Total(s.queues[p.r]))], 0)
  }

  /** An amendment may keep or lower the quantity, but not below what has already traded. */
  predicate Amendable(o: Order, newQuantity: u32) {
    o.cumulative <= newQuantity && newQuantity - o.cumulative <= o.remaining
  }

  function AmendAt(b: Book, p: Place, client: u32, request: u32, newQuantity: u32): Outcome
    requires ValidPlace(b, p)
  {
    var o := OrderAt(b, p);
    if o.clientId != client then Outcome(b, [Error(client, request, Unauthorised)], 0)
    else if !Amendable(o, newQuantity) then Outcome(b, [Error(client, request, InvalidVolume)], 0)
    else if newQuantity - o.cumulative == o.remaining then Outcome(b, [Amended(request, o.quantity, o)], 0)
    else ReduceAt(b, p, request, newQuantity)
  }

  function AmendOrder(b: Book, client: u32, request: u32, id: u32, newQuantity: u32): Outcome
    requires BookOk(b)
  {
    var p := Lookup(b, id);
    if p.Nowhere? then Outcome(b, [Error(client, request, OrderNotFound)], 0)
    else AmendAt(b, p, client, request, newQuantity)
  }

  lemma CancelAtOk(b: Book, p: Place, request: u32)
    requires BookOk(b) && ValidPlace(b, p)
    ensures BookOk(CancelAt(b, p, request).book)
  {
    var side := SideOf(b, p.isBid);
    CancelledOk(side, p.r, p.k);
    RemoveIds(side, b.ids, p.r, p.k);
    Assemble(b, CancelledSide(side, p.r, p.k), b.ids - {OrderAt(b, p).orderId});
  }

  lemma ReducedIds(s: Side, ids: map<u32, nat>, r: nat, k: nat, o: Order)
    requires SideOk(s) && IdsSide(s, ids) && r < NUM_LEVELS && k < |s.queues[r]|
    requires o.handle == s.queues[r][k].handle && o.orderId == s.queues[r][k].orderId
    ensures IdsSide(ReducedSide(s, r, k, o), if o.remaining == 0 then ids - {o.orderId} else ids)
  {
    if o.remaining == 0 {
      RemoveIds(s, ids, r, k);
    } else {
      UpdateIds(s, ids, r, k, o);
    }
  }

  lemma ReduceAtOk(b: Book, p: Place, request: u32, newQuantity: u32)
    requires BookOk(b) && ValidPlace(b, p) && OrderAt(b, p).cumulative <= newQuantity
    ensures BookOk(ReduceAt(b, p, request, newQuantity).book)
  {
    var o := OrderAt(b, p);
    var s := SideOf(b, p.isBid);
    PlaceOk(s, p.r, p.k);
    var o' := Resized(o, newQuantity);
    ReducedOk(s, p.r, p.k, o');
    ReducedIds(s, b.ids, p.r, p.k, o');
    Assemble(b, ReducedSide(s, p.r, p.k, o'), if o'.remaining == 0 then b.ids - {o.orderId} else b.ids);
  }

  function Apply(b: Book, c: Command): Outcome
    requires BookOk(b)
  {
    match c
    case Submit(price, quantity, isBid, client, request) => SubmitOrder(b, price, quantity, isBid, client, request)
    case Cancel(client, request, id) => CancelOrder(b, client, request, id)
    case Amend(client, request, id, newQuantity) => AmendOrder(b, client, request, id, newQuantity)
  }

  lemma SubmitOk(b: Book, price: int, quantity: u32, isBid: bool, client: u32, request: u32)
    requires BookOk(b)
    ensures BookOk(SubmitOrder(b, price, quantity, isBid, client, request).book)
  {
    hide SideOk, IdsSide, MatchSide, Rest;
    if 0 < quantity && MINIMUM_BID <= price <= MAXIMUM_ASK {
      AfterMatchOk(b, price, quantity, isBid, client);
      var m := MatchIncoming(b, price, quantity, isBid, client);
      BookSides(b);
      SideLength(m.side);
      if 0 < m.left {
        RestOk(AfterMatch(b, isBid, m), Incoming(b, price, quantity, m.left, isBid, client), request);
      }
    }
  }

  lemma CancelOk(b: Book, client: u32, request: u32, id: u32)
    requires BookOk(b)
    ensures BookOk(CancelOrder(b, client, request, id).book)
  {
    var p := Lookup(b, id);
    if p.At? {
      CancelAtOk(b, p, request);
    }
  }

  lemma AmendAtOk(b: Book, p: Place, client: u32, request: u32, newQuantity: u32)
    requires BookOk(b) && ValidPlace(b, p)
    ensures BookOk(AmendAt(b, p, client, request, newQuantity).book)
  {
    if Amendable(OrderAt(b, p), newQuantity) {
      ReduceAtOk(b, p, request, newQuantity);
    }
  }

  lemma AmendOk(b: Book, client: u32, request: u32, id: u32, newQuantity: u32)
    requires BookOk(b)
    ensures BookOk(AmendOrder(b, client, request, id, newQuantity).book)
  {
    var p := Lookup(b, id);
    if p.At? {
      AmendAtOk(b, p, client, request, newQuantity);
    }
  }

  /** Every request keeps the invariant. */
  lemma ApplyOk(b: Book, c: Command)
    requires BookOk(b)
    ensures BookOk(Apply(b, c).book)
  {
    match c
    case Submit(price, quantity, isBid, client, request) => SubmitOk(b, price, quantity, isBid, client, request);
    case Cancel(client, request, id) => CancelOk(b, client, request, id);
    case Amend(client, request, id, newQuantity) => AmendOk(b, client, request, id, newQuantity);
  }

  // ----- Runs -----

  function EmptySide(isBid: bool): Side {
    Side(isBid, seq(NUM_LEVELS, _ => []), seq(MAX_ORDERS, i => i), map[], NUM_LEVELS)
  }

  function EmptyBook(): Book {
    Book(EmptySide(true), EmptySide(false), map[], 0)
  }

  lemma EmptySideOk(isBid: bool)
    ensures SideOk(EmptySide(isBid))
  {
    var s := EmptySide(isBid);
    forall h | 0 <= h < MAX_ORDERS ensures h in s.free {
      assert s.free[h] == h;
    }
  }

  lemma EmptyOk()
    ensures BookOk(EmptyBook())
  {
    EmptySideOk(true);
    EmptySideOk(false);
  }

  /** The book after a sequence of requests. */
  function Run(cs: seq<Command>): (b: Book)
    ensures BookOk(b)
  {
    if cs == [] then EmptyOk(); EmptyBook()
    else
      var b := Run(cs[..|cs| - 1]);
      ApplyOk(b, cs[|cs| - 1]);
      Apply(b, cs[|cs| - 1]).book
  }
}
