/** What cancellations, amendments and rejected requests do, said of the lists of resting orders and
    of the callbacks alone. */
module Requests {
  import opened Types
  import opened BookModel
  import opened PriceTime
  import opened IdIndex
  import opened Ranking

  // ----- Positions in the list of resting orders -----

  /** Volume resting at a price. */
  function VolumeAt(os: seq<Order>, price: int): nat {
    if os == [] then 0 else (if os[0].price == price then os[0].remaining else 0) + VolumeAt(os[1..], price)
  }

  lemma {:induction false} VolumeAtConcat(a: seq<Order>, b: seq<Order>, price: int)
    ensures VolumeAt(a + b, price) == VolumeAt(a, price) + VolumeAt(b, price)
  {
    if a == [] {
      assert a + b == b;
    } else {
      assert (a + b)[1..] == a[1..] + b;
      VolumeAtConcat(a[1..], b, price);
    }
  }

  lemma {:induction false} VolumeOfLevel(os: seq<Order>, at: int, price: int)
    requires forall i :: 0 <= i < |os| ==> os[i].price == at
    ensures VolumeAt(os, price) == if at == price then SumRemaining(os) else 0
  {
    if os != [] {
      VolumeOfLevel(os[1..], at, price);
    }
  }

  lemma {:induction false} VolumeExposed(s: Side, a: nat, r: nat)
    requires Slots(s) && r < NUM_LEVELS
    ensures VolumeAt(Exposed(s.queues, a, NUM_LEVELS - 1), PriceOf(s.isBid, r)) ==
            if a <= r then SumRemaining(s.queues[r]) else 0
    decreases NUM_LEVELS - a
  {
    hide QueuesOk, HomeOk, FreeOk, SumRemaining, VolumeAt;
    SlotsLength(s);
    if a < NUM_LEVELS {
      VolumeExposed(s, a + 1, r);
      VolumeAtConcat(s.queues[a], Exposed(s.queues, a + 1, NUM_LEVELS - 1), PriceOf(s.isBid, r));
      forall k | 0 <= k < |s.queues[a]| ensures s.queues[a][k].price == PriceOf(s.isBid, a) {
        PlaceOk(s, a, k);
      }
      VolumeOfLevel(s.queues[a], PriceOf(s.isBid, a), PriceOf(s.isBid, r));
    } else {
      NoVolume(PriceOf(s.isBid, r));
    }
  }

  lemma NoVolume(price: int)
    ensures VolumeAt([], price) == 0
  {
  }

  /** The total a level shows is the volume resting at its price, on 32 bits. */
  lemma TotalIsVolume(s: Side, r: nat)
    requires SideOk(s) && r < NUM_LEVELS
    ensures Total(s.queues[r]) == Wrap(VolumeAt(Resting(s), PriceOf(s.isBid, r)))
  {
    hide QueuesOk, HomeOk, FreeOk, VolumeAt, Exposed;
    VolumeExposed(s, 0, r);
  }

  /** The level and place of the k-th resting order. */
  lemma {:induction false} Locate(qs: seq<seq<Order>>, a: nat, k: nat) returns (r: nat, j: nat)
    requires k < |Exposed(qs, a, |qs| - 1)|
    ensures a <= r < |qs| && j < |qs[r]| && Exposed(qs, a, |qs| - 1)[k] == qs[r][j]
    ensures k == |Exposed(qs, a, r - 1)| + j
    decreases |qs| - a
  {
    if k < |qs[a]| {
      r, j := a, k;
    } else {
      r, j := Locate(qs, a + 1, k - |qs[a]|);
    }
  }

  /** The list around one level. */
  lemma Around(qs: seq<seq<Order>>, r: nat, q: seq<Order>)
    requires r < |qs|
    ensures Exposed(qs[r := q], 0, |qs| - 1) == Exposed(qs, 0, r - 1) + q + Exposed(qs, r + 1, |qs| - 1)
  {
    var qs' := qs[r := q];
    ExposedSplit(qs', 0, r - 1, |qs| - 1);
    ExposedFrame(qs, qs', 0, r - 1);
    ExposedFrame(qs, qs', r + 1, |qs| - 1);
  }

  lemma AroundItself(qs: seq<seq<Order>>, r: nat)
    requires r < |qs|
    ensures Exposed(qs, 0, |qs| - 1) == Exposed(qs, 0, r - 1) + qs[r] + Exposed(qs, r + 1, |qs| - 1)
  {
    Around(qs, r, qs[r]);
    assert qs[r := qs[r]] == qs;
  }

  lemma RestingWithout(qs: seq<seq<Order>>, r: nat, j: nat)
    requires r < |qs| && j < |qs[r]|
    ensures var k := |Exposed(qs, 0, r - 1)| + j;
            && k < |Exposed(qs, 0, |qs| - 1)|
            && Exposed(qs[r := Without(qs[r], j)], 0, |qs| - 1) == Without(Exposed(qs, 0, |qs| - 1), k)
  {
    hide Exposed;
    AroundItself(qs, r);
    Around(qs, r, Without(qs[r], j));
    var p, q, t := Exposed(qs, 0, r - 1), qs[r], Exposed(qs, r + 1, |qs| - 1);
    assert p + Without(q, j) + t == Without(p + q + t, |p| + j);
  }

  lemma RestingUpdated(qs: seq<seq<Order>>, r: nat, j: nat, o: Order)
    requires r < |qs| && j < |qs[r]|
    ensures var k := |Exposed(qs, 0, r - 1)| + j;
            && k < |Exposed(qs, 0, |qs| - 1)|
            && Exposed(qs[r := qs[r][j := o]], 0, |qs| - 1) == Exposed(qs, 0, |qs| - 1)[k := o]
  {
    hide Exposed;
    AroundItself(qs, r);
    Around(qs, r, qs[r][j := o]);
    var p, q, t := Exposed(qs, 0, r - 1), qs[r], Exposed(qs, r + 1, |qs| - 1);
    assert p + q[j := o] + t == (p + q + t)[|p| + j := o];
  }

  // ----- Looking an order up -----

  /** The k-th resting order of a side carries this id. */
  predicate RestsAt(b: Book, isBid: bool, k: nat, id: u32) {
    k < |Resting(SideOf(b, isBid))| && Resting(SideOf(b, isBid))[k].orderId == id
  }

  lemma LookupPlace(b: Book, isBid: bool, r: nat, j: nat)
    requires BookOk(b) && Indexed(b) && r < NUM_LEVELS && j < |SideOf(b, isBid).queues[r]|
    ensures Lookup(b, SideOf(b, isBid).queues[r][j].orderId) == At(isBid, r, j)
  {
    hide HomeOk, FreeOk, IdsSide;
    var s := SideOf(b, isBid);
    assert QueueIndexed(s.isBid, b.ids, b.accepted, s.queues[r]);
    assert QueueOk(s.isBid, s.home, r, s.queues[r]);
    PlaceOk(s, r, j);
  }

  /** Where a resting order is found. */
  lemma LookupResting(b: Book, isBid: bool, k: nat, id: u32) returns (r: nat, j: nat)
    requires BookOk(b) && Indexed(b) && RestsAt(b, isBid, k, id)
    ensures r < NUM_LEVELS && |SideOf(b, isBid).queues| == NUM_LEVELS && j < |SideOf(b, isBid).queues[r]|
    ensures Lookup(b, id) == At(isBid, r, j)
    ensures SideOf(b, isBid).queues[r][j] == Resting(SideOf(b, isBid))[k]
    ensures k == |Exposed(SideOf(b, isBid).queues, 0, r - 1)| + j
  {
    hide BookOk, Exposed, Lookup;
    BookSides(b);
    r, j := Locate(SideOf(b, isBid).queues, 0, k);
    LookupPlace(b, isBid, r, j);
  }

  /** No resting order of either side carries this id. */
  predicate NoneRests(b: Book, id: u32) {
    forall isBid: bool, k :: 0 <= k < |Resting(SideOf(b, isBid))| ==> Resting(SideOf(b, isBid))[k].orderId != id
  }

  lemma LookupNone(b: Book, id: u32)
    requires BookOk(b) && NoneRests(b, id)
    ensures Lookup(b, id) == Nowhere
  {
    hide QueuesOk, HomeOk, FreeOk, IdsSide, Lookup, Resting;
    LookupFinds(b, id);
    var p := Lookup(b, id);
    if p.At? {
      RestsSomewhere(b, p);
    }
  }

  lemma RestsSomewhere(b: Book, p: Place)
    requires ValidPlace(b, p)
    ensures var k := |Exposed(SideOf(b, p.isBid).queues, 0, p.r - 1)| + p.k;
            RestsAt(b, p.isBid, k, OrderAt(b, p).orderId)
  {
    hide Exposed;
    AroundItself(SideOf(b, p.isBid).queues, p.r);
  }

  // ----- Cancellations -----

  /** The owner's cancellation takes exactly that order off the book; anybody else's is refused. */
  ghost predicate CancelAnswer(b: Book, c: Command, isBid: bool, k: nat, out: Outcome)
    requires c.Cancel? && RestsAt(b, isBid, k, c.id)
  {
    var resting, resting' := Resting(SideOf(b, isBid)), Resting(SideOf(out.book, isBid));
    var o := resting[k];
    if o.clientId == c.client then
      && resting' == resting[..k] + resting[k + 1..]
      && SideOf(out.book, !isBid) == SideOf(b, !isBid)
      && out.events == [LevelUpdate(isBid, o.price, Wrap(VolumeAt(resting', o.price))), Cancelled(c.request, o)]
    else
      out.book == b && out.events == [Error(c.client, c.request, Unauthorised)]
  }

  /** Cancelling an order that rests, on every run of at most 2^32 accepted submissions. */
  lemma CancelMeaning(cs: seq<Command>, c: Command, isBid: bool, k: nat)
    requires Run(cs).accepted <= U32 && c.Cancel? && RestsAt(Run(cs), isBid, k, c.id)
    ensures CancelAnswer(Run(cs), c, isBid, k, Apply(Run(cs), c))
  {
    hide *;
    RunIndexed(cs);
    var r, j := LookupResting(Run(cs), isBid, k, c.id);
    CancelPlaced(Run(cs), c, isBid, k, r, j);
  }

  lemma CancelPlaced(b: Book, c: Command, isBid: bool, k: nat, r: nat, j: nat)
    requires BookOk(b) && c.Cancel? && RestsAt(b, isBid, k, c.id) && Lookup(b, c.id) == At(isBid, r, j)
    requires r < |SideOf(b, isBid).queues| == NUM_LEVELS && j < |SideOf(b, isBid).queues[r]|
    requires SideOf(b, isBid).queues[r][j] == Resting(SideOf(b, isBid))[k]
    requires k == |Exposed(SideOf(b, isBid).queues, 0, r - 1)| + j
    ensures CancelAnswer(b, c, isBid, k, Apply(b, c))
  {
    hide SideOk, IdsSide, Lookup, Exposed, VolumeAt, CancelAt, Total;
    BookSides(b);
    if Resting(SideOf(b, isBid))[k].clientId == c.client {
      CancelledForm(b, At(isBid, r, j), c.request);
      ApplyOk(b, c);
      BookSides(Apply(b, c).book);
      TotalIsVolume(SideOf(Apply(b, c).book, isBid), r);
      SlotPrice(SideOf(b, isBid), r, j);
      RestingWithout(SideOf(b, isBid).queues, r, j);
    }
  }

  lemma SlotPrice(s: Side, r: nat, j: nat)
    requires SideOk(s) && r < NUM_LEVELS && j < |s.queues[r]|
    ensures Sound(s.queues[r][j]) && s.queues[r][j].price == PriceOf(s.isBid, r)
  {
    PlaceOk(s, r, j);
  }

  lemma CancelledForm(b: Book, p: Place, request: u32)
    requires BookOk(b) && ValidPlace(b, p)
    ensures var out := CancelAt(b, p, request);
            var s, s' := SideOf(b, p.isBid), SideOf(out.book, p.isBid);
            && s'.queues == s.queues[p.r := Without(s.queues[p.r], p.k)]
            && SideOf(out.book, !p.isBid) == SideOf(b, !p.isBid)
            && out.events == [LevelUpdate(p.isBid, OrderAt(b, p).price, Total(s'.queues[p.r])),
                              Cancelled(request, OrderAt(b, p))]
  {
    hide SideOk, IdsSide, ScanFrom;
    BookSides(b);
  }

  lemma CancelUnknown(cs: seq<Command>, c: Command)
    requires c.Cancel? && NoneRests(Run(cs), c.id)
    ensures Apply(Run(cs), c).book == Run(cs)
    ensures Apply(Run(cs), c).events == [Error(c.client, c.request, OrderNotFound)]
  {
    hide BookOk, Run, Lookup, NoneRests;
    LookupNone(Run(cs), c.id);
  }

  // ----- Amendments -----

  /** The owner may set any quantity from what has traded up to the present quantity: the order
      keeps its place with what remains, or leaves when nothing does. Everything else is refused. */
  ghost predicate AmendAnswer(b: Book, c: Command, isBid: bool, k: nat, out: Outcome)
    requires c.Amend? && RestsAt(b, isBid, k, c.id)
  {
    var resting, resting' := Resting(SideOf(b, isBid)), Resting(SideOf(out.book, isBid));
    var o := resting[k];
    if o.clientId != c.client then
      out.book == b && out.events == [Error(c.client, c.request, Unauthorised)]
    else if c.newQuantity < o.cumulative || o.quantity < c.newQuantity then
      out.book == b && out.events == [Error(c.client, c.request, InvalidVolume)]
    else
      var o' := o.(quantity := c.newQuantity, remaining := c.newQuantity - o.cumulative);
      && resting' == (if o'.remaining == 0 then resting[..k] + resting[k + 1..] else resting[k := o'])
      && SideOf(out.book, !isBid) == SideOf(b, !isBid)
      && out.events == [Amended(c.request, o.quantity, o')]
                       + (if c.newQuantity == o.quantity then []
                          else [LevelUpdate(isBid, o.price, Wrap(VolumeAt(resting', o.price)))])
  }

  /** Amending an order that rests, on every run of at most 2^32 accepted submissions. */
  lemma AmendMeaning(cs: seq<Command>, c: Command, isBid: bool, k: nat)
    requires Run(cs).accepted <= U32 && c.Amend? && RestsAt(Run(cs), isBid, k, c.id)
    ensures Resting(SideOf(Run(cs), isBid))[k].cumulative <= Resting(SideOf(Run(cs), isBid))[k].quantity
    ensures AmendAnswer(Run(cs), c, isBid, k, Apply(Run(cs), c))
  {
    hide *;
    RunIndexed(cs);
    var r, j := LookupResting(Run(cs), isBid, k, c.id);
    AmendPlaced(Run(cs), c, isBid, k, r, j);
  }

  lemma AmendPlaced(b: Book, c: Command, isBid: bool, k: nat, r: nat, j: nat)
    requires BookOk(b) && c.Amend? && RestsAt(b, isBid, k, c.id) && Lookup(b, c.id) == At(isBid, r, j)
    requires r < |SideOf(b, isBid).queues| == NUM_LEVELS && j < |SideOf(b, isBid).queues[r]|
    requires SideOf(b, isBid).queues[r][j] == Resting(SideOf(b, isBid))[k]
    requires k == |Exposed(SideOf(b, isBid).queues, 0, r - 1)| + j
    ensures Resting(SideOf(b, isBid))[k].cumulative <= Resting(SideOf(b, isBid))[k].quantity
    ensures AmendAnswer(b, c, isBid, k, Apply(b, c))
  {
    hide SideOk, IdsSide, Lookup, Exposed, VolumeAt, ReduceAt, Total;
    BookSides(b);
    var o := Resting(SideOf(b, isBid))[k];
    SlotPrice(SideOf(b, isBid), r, j);
    if o.clientId == c.client && o.cumulative <= c.newQuantity <= o.quantity {
      if c.newQuantity == o.quantity {
        assert Resting(SideOf(b, isBid))[k := o] == Resting(SideOf(b, isBid));
        assert [Amended(c.request, o.quantity, o)] + [] == [Amended(c.request, o.quantity, o)];
      } else {
        AmendReduces(b, c, isBid, k, r, j);
      }
    }
  }

  lemma AmendReduces(b: Book, c: Command, isBid: bool, k: nat, r: nat, j: nat)
    requires BookOk(b) && c.Amend? && Lookup(b, c.id) == At(isBid, r, j)
    requires r < |SideOf(b, isBid).queues| == NUM_LEVELS && j < |SideOf(b, isBid).queues[r]|
    requires k == |Exposed(SideOf(b, isBid).queues, 0, r - 1)| + j
    requires var o := SideOf(b, isBid).queues[r][j];
             Sound(o) && o.clientId == c.client && o.cumulative <= c.newQuantity < o.quantity
    ensures var out := Apply(b, c);
            var resting, resting' := Resting(SideOf(b, isBid)), Resting(SideOf(out.book, isBid));
            var o := SideOf(b, isBid).queues[r][j];
            var o' := o.(quantity := c.newQuantity, remaining := c.newQuantity - o.cumulative);
            && k < |resting|
            && resting' == (if o'.remaining == 0 then resting[..k] + resting[k + 1..] else resting[k := o'])
            && SideOf(out.book, !isBid) == SideOf(b, !isBid)
            && out.events == [Amended(c.request, o.quantity, o')]
                             + [LevelUpdate(isBid, o.price, Wrap(VolumeAt(resting', o.price)))]
  {
    hide SideOk, IdsSide, Lookup, Exposed, VolumeAt, ReduceAt, Total;
    BookSides(b);
    var o := SideOf(b, isBid).queues[r][j];
    ReducedAtForm(b, At(isBid, r, j), c.request, c.newQuantity);
    ApplyOk(b, c);
    BookSides(Apply(b, c).book);
    TotalIsVolume(SideOf(Apply(b, c).book, isBid), r);
    SlotPrice(SideOf(b, isBid), r, j);
    RestingWithout(SideOf(b, isBid).queues, r, j);
    var o' := o.(quantity := c.newQuantity, remaining := c.newQuantity - o.cumulative);
    RestingUpdated(SideOf(b, isBid).queues, r, j, o');
  }

  lemma ReducedAtForm(b: Book, p: Place, request: u32, newQuantity: u32)
    requires BookOk(b) && ValidPlace(b, p) && OrderAt(b, p).cumulative <= newQuantity
    ensures var out := ReduceAt(b, p, request, newQuantity);
            var s, s' := SideOf(b, p.isBid), SideOf(out.book, p.isBid);
            var o := OrderAt(b, p);
            var o' := o.(quantity := newQuantity, remaining := newQuantity - o.cumulative);
            && s'.queues == s.queues[p.r := if o'.remaining == 0 then Without(s.queues[p.r], p.k)
                                            else s.queues[p.r][p.k := o']]
            && SideOf(out.book, !p.isBid) == SideOf(b, !p.isBid)
            && out.events == [Amended(request, o.quantity, o'), LevelUpdate(p.isBid, o.price, Total(s'.queues[p.r]))]
  {
    hide SideOk, IdsSide, ScanFrom, Total;
    BookSides(b);
  }

  lemma AmendUnknown(cs: seq<Command>, c: Command)
    requires c.Amend? && NoneRests(Run(cs), c.id)
    ensures Apply(Run(cs), c).book == Run(cs)
    ensures Apply(Run(cs), c).events == [Error(c.client, c.request, OrderNotFound)]
  {
    hide BookOk, Run, Lookup, NoneRests;
    LookupNone(Run(cs), c.id);
  }

  // ----- The cached best price -----

  /** The cached best is the nearest level from a rank on that shows a total, or there is none. */
  ghost predicate NextShown(s: Side, from: nat) {
    && |s.queues| == NUM_LEVELS
    && s.best <= NUM_LEVELS
    && (s.best < NUM_LEVELS ==> from <= s.best && Total(s.queues[s.best]) > 0)
    && (forall i :: from <= i < s.best ==> Total(s.queues[i]) == 0)
  }

  lemma ScanShown(s: Side, from: nat)
    requires |s.queues| == NUM_LEVELS
    ensures NextShown(s.(best := ScanFrom(s.queues, from)), from)
  {
  }

  /** The cached best after a cancellation: it moves to the next level that shows a total exactly when
      the last order of the cached best level left. */
  lemma CancelBest(cs: seq<Command>, c: Command, isBid: bool, k: nat)
    requires Run(cs).accepted <= U32 && c.Cancel? && RestsAt(Run(cs), isBid, k, c.id)
    requires Resting(SideOf(Run(cs), isBid))[k].clientId == c.client
    ensures var s, s' := SideOf(Run(cs), isBid), SideOf(Apply(Run(cs), c).book, isBid);
            var r := RankOf(isBid, Resting(s)[k].price);
            && |s'.queues| == NUM_LEVELS && 0 <= r < NUM_LEVELS
            && if s.best == r && s'.queues[r] == [] then NextShown(s', r + 1) else s'.best == s.best
  {
    hide BookOk, SideOk, Run, Lookup, Resting, NextShown, ScanFrom;
    var b := Run(cs);
    RunIndexed(cs);
    BookSides(b);
    var r, j := LookupResting(b, isBid, k, c.id);
    var s := SideOf(b, isBid);
    SlotPrice(s, r, j);
    CancelledBest(s, r, j);
  }

  lemma CancelledBest(s: Side, r: nat, j: nat)
    requires |s.queues| == NUM_LEVELS && r < NUM_LEVELS && j < |s.queues[r]|
    ensures var s' := CancelledSide(s, r, j);
            && |s'.queues| == NUM_LEVELS && s'.isBid == s.isBid
            && if s.best == r && s'.queues[r] == [] then NextShown(s', r + 1) else s'.best == s.best
  {
    hide NextShown, ScanFrom;
    ScanShown(RemoveAt(s, r, j), r + 1);
  }

  /** The cached best after an amendment that lowers an order: it moves exactly when the level's 32-bit
      total becomes 0, to the next level behind the cached best that shows a total. With no best price
      cached, the bid side starts over from the top and the ask side finds none. */
  lemma AmendBest(cs: seq<Command>, c: Command, isBid: bool, k: nat)
    requires Run(cs).accepted <= U32 && c.Amend? && RestsAt(Run(cs), isBid, k, c.id)
    requires var o := Resting(SideOf(Run(cs), isBid))[k];
             o.clientId == c.client && o.cumulative <= c.newQuantity < o.quantity
    ensures var s, s' := SideOf(Run(cs), isBid), SideOf(Apply(Run(cs), c).book, isBid);
            var r := RankOf(isBid, Resting(s)[k].price);
            && |s'.queues| == NUM_LEVELS && 0 <= r < NUM_LEVELS
            && if Total(s'.queues[r]) == 0 then
                 NextShown(s', if s.best < NUM_LEVELS then s.best + 1 else if isBid then 0 else NUM_LEVELS)
               else s'.best == s.best
  {
    hide BookOk, SideOk, Run, Lookup, Resting, NextShown, ScanFrom, Total;
    var b := Run(cs);
    RunIndexed(cs);
    BookSides(b);
    var r, j := LookupResting(b, isBid, k, c.id);
    var s := SideOf(b, isBid);
    SlotPrice(s, r, j);
    LoweredBest(s, r, j, Resized(s.queues[r][j], c.newQuantity));
  }

  lemma LoweredBest(s: Side, r: nat, j: nat, o: Order)
    requires |s.queues| == NUM_LEVELS && r < NUM_LEVELS && j < |s.queues[r]|
    ensures var s' := ReducedSide(s, r, j, o);
            && |s'.queues| == NUM_LEVELS && s'.isBid == s.isBid
            && if Total(s'.queues[r]) == 0 then
                 NextShown(s', if s.best < NUM_LEVELS then s.best + 1 else if s.isBid then 0 else NUM_LEVELS)
               else s'.best == s.best
  {
    hide NextShown, ScanFrom, Total;
    var t := if o.remaining == 0 then RemoveAt(s, r, j) else UpdateAt(s, r, j, o);
    ScanShown(t, if s.best < NUM_LEVELS then s.best + 1 else if s.isBid then 0 else NUM_LEVELS);
  }
}
