/** The cached best price and crossing over whole runs: when the cached price is exact, and when
    the book is crossed. */
module BestPrice {
  import opened Types
  import opened Matching
  import opened BookModel
  import opened PriceTime

  predicate Exact(b: Book) {
    TrueBest(b.bids) && TrueBest(b.asks)
  }

  predicate NoWraps(b: Book) {
    NoWrap(b.bids.queues) && NoWrap(b.asks.queues)
  }

  // ----- What makes a best price wrong -----

  /** The re-scan behind the best would pass orders: a non-empty level, and no level before it, shows
      a total of 0. */
  predicate Veiled(s: Side) {
    exists r :: s.best < r < |s.queues| && s.queues[r] != [] && NoneShown(s.queues, s.best + 1, r)
  }

  predicate NoneShown(qs: seq<seq<Order>>, lo: int, hi: int) {
    forall i :: 0 <= i < |qs| && lo <= i <= hi ==> Total(qs[i]) == 0
  }

  /** Volume offered to matching at levels better than r. */
  function OfferedBefore(s: Side, r: int): nat {
    SumRemaining(Exposed(Offered(s), 0, r - 1))
  }

  /** All levels offered before r are within the limit. */
  predicate Within(s: Side, limit: int, r: int) {
    forall i :: 0 <= i < |s.queues| && limit < i < r ==> Offered(s)[i] == []
  }

  /** Matching uses up everything offered before a hidden level behind the best, and moves past it. */
  predicate Passes(s: Side, limit: int, qty: nat) {
    exists r :: s.best < r < |s.queues| && Hidden(s, r) && Within(s, limit, r) && OfferedBefore(s, r) <= qty
  }

  /** Lowering the remaining quantity at r, k to `remaining` triggers a re-scan that moves the best
      price past orders: another level's, those left at this level, or those behind. */
  predicate Unseats(s: Side, r: nat, k: nat, remaining: u32)
    requires r < |s.queues| && k < |s.queues[r]|
  {
    && Wrap(SumRemaining(s.queues[r]) - s.queues[r][k].remaining + remaining) == 0
    && (r != s.best || 0 < remaining || 1 < |s.queues[r]| || Veiled(s))
  }

  /** Requests that leave a wrong best price behind. */
  predicate Hides(b: Book, c: Command)
    requires BookOk(b)
  {
    match c
    case Submit(price, quantity, isBid, _, _) =>
      Accepted(c) && Passes(SideOf(b, !isBid), RankOf(!isBid, price), quantity)
    case Cancel(client, _, id) =>
      var p := Lookup(b, id);
      && p.At?
      && OrderAt(b, p).clientId == client
      && var s := SideOf(b, p.isBid);
      && p.r == s.best && |s.queues[p.r]| == 1 && Veiled(s)
    case Amend(client, _, id, newQuantity) =>
      var p := Lookup(b, id);
      && p.At?
      && var o := OrderAt(b, p);
      && o.clientId == client && Amendable(o, newQuantity) && newQuantity - o.cumulative != o.remaining
      && Unseats(SideOf(b, p.isBid), p.r, p.k, newQuantity - o.cumulative)
  }

  // ----- Matching -----

  lemma {:induction false} ExposedEmpty(qs: seq<seq<Order>>, a: nat, limit: int)
    requires forall i :: a <= i < |qs| && i <= limit ==> qs[i] == []
    ensures Exposed(qs, a, limit) == []
    decreases |qs| - a
  {
    if a < |qs| && a <= limit {
      ExposedEmpty(qs, a + 1, limit);
    }
  }

  lemma {:induction false} ExposedVolume(qs: seq<seq<Order>>, a: nat, limit: int, r: nat, q: seq<Order>)
    requires a <= r < |qs| && r <= limit
    ensures SumRemaining(Exposed(qs[r := q], a, limit)) ==
            SumRemaining(Exposed(qs, a, limit)) - SumRemaining(qs[r]) + SumRemaining(q)
    ensures SumRemaining(qs[r]) <= SumRemaining(Exposed(qs, a, limit))
    decreases r - a
  {
    SumRemainingConcat(qs[a], Exposed(qs, a + 1, limit));
    SumRemainingConcat(qs[r := q][a], Exposed(qs[r := q], a + 1, limit));
    if a < r {
      ExposedVolume(qs, a + 1, limit, r, q);
    } else {
      ExposedFrame(qs, qs[r := q], a + 1, limit);
    }
  }

  /** A trade takes its quantity off the volume offered before any worse level. */
  lemma TradeVolume(s: Side, ids: map<u32, nat>, taker: Taker, qty: nat, r: int)
    requires SideOk(s) && s.best < NUM_LEVELS && 0 < qty <= taker.total && s.best < r
    ensures var m := MatchOne(s, ids, taker, qty);
            && OfferedBefore(m.side, r) == OfferedBefore(s, r) - (qty - m.left)
            && 0 < OfferedBefore(s, r)
  {
    hide QueuesOk, HomeOk, FreeOk, MatchOne, Hidden, Exposed;
    MatchOneStep(s, ids, taker, qty);
    NotHidden(s);
    var q := s.queues[s.best];
    assert q == [q[0]] + q[1..];
    SumRemainingConcat([q[0]], q[1..]);
    if qty < q[0].remaining {
      SumRemainingConcat([Traded(q[0], qty)], q[1..]);
    }
    ExposedVolume(Offered(s), 0, r - 1, s.best, AfterTrade(q, qty));
  }

  /** Matching moves the best price past a level exactly when everything offered up to that level is
      within the limit and not more than the taker wants. */
  lemma {:induction false} PassedLevel(s: Side, ids: map<u32, nat>, limit: int, taker: Taker, qty: nat, r: int)
    requires SideOk(s) && qty <= taker.total && 0 <= r < NUM_LEVELS
    ensures r < MatchSide(s, ids, limit, taker, qty).side.best <==>
            Within(s, limit, r + 1) && OfferedBefore(s, r + 1) <= qty
    decreases qty
  {
    hide QueuesOk, HomeOk, FreeOk, MatchOne, OfferedBefore, Framed, Within, Hidden;
    if r < s.best {
      MatchSideFrame(s, ids, limit, taker, qty);
      FramedBest(s, MatchSide(s, ids, limit, taker, qty).side, limit);
      NothingBefore(s, limit, r + 1);
    } else if CanMatch(s, limit, qty) {
      var m := MatchOne(s, ids, taker, qty);
      MatchOneStep(s, ids, taker, qty);
      PassedLevel(m.side, m.ids, limit, taker, m.left, r);
      TradeVolume(s, ids, taker, qty, r + 1);
      WithinStep(s, m.side, limit, r + 1, AfterTrade(s.queues[s.best], qty));
    } else {
      OfferedBest(s, limit, r + 1);
    }
  }

  /** A hidden level offers nothing itself. */
  lemma PassedIff(s: Side, ids: map<u32, nat>, limit: int, taker: Taker, qty: nat, r: int)
    requires SideOk(s) && qty <= taker.total && Hidden(s, r)
    ensures r < MatchSide(s, ids, limit, taker, qty).side.best <==>
            Within(s, limit, r) && OfferedBefore(s, r) <= qty
  {
    hide QueuesOk, HomeOk, FreeOk, MatchSide, Exposed;
    PassedLevel(s, ids, limit, taker, qty, r);
    assert Offered(s)[r] == [];
    ExposedSplit(Offered(s), 0, r - 1, r);
    ExposedEmpty(Offered(s), r, r);
    assert Exposed(Offered(s), 0, r - 1) + [] == Exposed(Offered(s), 0, r - 1);
  }

  lemma WithinStep(s: Side, t: Side, limit: int, r: int, q: seq<Order>)
    requires s.best < |s.queues| == |t.queues| && s.best <= limit && Offered(t) == Offered(s)[s.best := q]
    ensures Within(t, limit, r) <==> Within(s, limit, r)
  {
    hide Hidden;
    assert forall i :: 0 <= i < |s.queues| && limit < i ==> Offered(t)[i] == Offered(s)[i];
  }

  lemma NothingBefore(s: Side, limit: int, r: int)
    requires r <= s.best
    ensures Within(s, limit, r) && OfferedBefore(s, r) == 0
  {
    ExposedEmpty(Offered(s), 0, r - 1);
  }

  lemma OfferedBest(s: Side, limit: int, r: int)
    requires SideOk(s) && s.best < r && s.best < NUM_LEVELS
    ensures 0 < OfferedBefore(s, r)
    ensures limit < s.best ==> !Within(s, limit, r)
  {
    hide HomeOk, FreeOk, Exposed;
    NotHidden(s);
    PlaceOk(s, s.best, 0);
    ExposedVolume(Offered(s), 0, r - 1, s.best, []);
  }

  lemma MatchKeepsBest(s: Side, ids: map<u32, nat>, limit: int, taker: Taker, qty: nat)
    requires SideOk(s) && qty <= taker.total && TrueBest(s)
    ensures TrueBest(MatchSide(s, ids, limit, taker, qty).side) <==> !Passes(s, limit, qty)
  {
    hide QueuesOk, HomeOk, FreeOk, MatchSide, Within, OfferedBefore;
    var t := MatchSide(s, ids, limit, taker, qty).side;
    MatchSideFrame(s, ids, limit, taker, qty);
    if !TrueBest(t) {
      var r :| 0 <= r < t.best && r < |t.queues| && t.queues[r] != [];
      assert Hidden(t, r);
      assert Hidden(s, r);
      PassedIff(s, ids, limit, taker, qty, r);
      assert Passes(s, limit, qty);
    }
    if Passes(s, limit, qty) {
      var r :| s.best < r < |s.queues| && Hidden(s, r) && Within(s, limit, r) && OfferedBefore(s, r) <= qty;
      PassedIff(s, ids, limit, taker, qty, r);
      assert t.queues[r] != [];
    }
  }

  // ----- Cancelling and amending -----

  /** A re-scan behind an exact best price is exact unless it passes orders. */
  lemma RescanExact(s: Side)
    requires |s.queues| == NUM_LEVELS && s.best < NUM_LEVELS && EmptyBefore(s.queues, s.best + 1)
    ensures TrueBest(Rescan(s)) <==> !Veiled(s)
  {
    var b := Rescan(s).best;
    if Veiled(s) {
      var r :| s.best < r < |s.queues| && s.queues[r] != [] && NoneShown(s.queues, s.best + 1, r);
      assert r < b;
    }
    if !TrueBest(Rescan(s)) {
      var r :| 0 <= r < b && r < |s.queues| && s.queues[r] != [];
      assert NoneShown(s.queues, s.best + 1, r);
    }
  }

  lemma VeiledBehind(s: Side, t: Side, q: seq<Order>)
    requires s.best < |s.queues| && t.queues == s.queues[s.best := q] && t.best == s.best
    ensures Veiled(t) <==> Veiled(s)
  {
    hide Total;
    assert forall i :: s.best < i < |s.queues| ==> t.queues[i] == s.queues[i];
    if Veiled(s) {
      var r :| s.best < r < |s.queues| && s.queues[r] != [] && NoneShown(s.queues, s.best + 1, r);
      assert NoneShown(t.queues, t.best + 1, r);
    }
    if Veiled(t) {
      var r :| t.best < r < |t.queues| && t.queues[r] != [] && NoneShown(t.queues, t.best + 1, r);
      assert NoneShown(s.queues, s.best + 1, r);
    }
  }

  /** Cancelling keeps the best price exact unless the last order of the best level leaves and the
      re-scan passes orders. */
  lemma CancelKeepsBest(s: Side, r: nat, k: nat)
    requires SideOk(s) && r < NUM_LEVELS && k < |s.queues[r]| && TrueBest(s)
    ensures TrueBest(CancelledSide(s, r, k)) <==> !(r == s.best && |s.queues[r]| == 1 && Veiled(s))
  {
    hide QueuesOk, HomeOk, FreeOk, Veiled;
    var t := RemoveAt(s, r, k);
    if t.queues[r] == [] && s.best == r {
      RescanExact(t);
      VeiledBehind(s, t, []);
    }
  }

  /** Lowering an order keeps the best price exact if and only if it does not bring a level's total
      to 0 with orders left in front of the new best price. */
  lemma {:induction false} ReduceKeepsBest(s: Side, r: nat, k: nat, o: Order)
    requires SideOk(s) && r < NUM_LEVELS && k < |s.queues[r]| && TrueBest(s)
    ensures TrueBest(ReducedSide(s, r, k, o)) <==> !Unseats(s, r, k, o.remaining)
  {
    hide SideOk, Veiled, Total, SumRemaining, TrueBest, Wrap, Rescan, ReducedSide;
    SideLength(s);
    var q := s.queues[r];
    LoweredTotal(q, k, o);
    ReducedForm(s, r, k, o);
    if o.remaining == 0 {
      RescanAfter(s, RemoveAt(s, r, k), r, Without(q, k));
    } else {
      RescanAfter(s, UpdateAt(s, r, k, o), r, q[k := o]);
    }
  }

  lemma {:induction false} ReducedForm(s: Side, r: nat, k: nat, o: Order)
    requires |s.queues| == NUM_LEVELS && r < NUM_LEVELS && k < |s.queues[r]|
    ensures ReducedSide(s, r, k, o) ==
            if o.remaining == 0 then
              (if Total(Without(s.queues[r], k)) == 0 then Rescan(RemoveAt(s, r, k)) else RemoveAt(s, r, k))
            else
              (if Total(s.queues[r][k := o]) == 0 then Rescan(UpdateAt(s, r, k, o)) else UpdateAt(s, r, k, o))
  {
    hide Total, ScanFrom;
  }

  lemma {:induction false} LoweredTotal(q: seq<Order>, k: nat, o: Order)
    requires k < |q|
    ensures var q' := if o.remaining == 0 then Without(q, k) else q[k := o];
            && Total(q') == Wrap(SumRemaining(q) - q[k].remaining + o.remaining)
            && (q' == [] <==> o.remaining == 0 && |q| == 1)
  {
    hide SumRemaining, Wrap;
    if o.remaining == 0 {
      SumRemainingRemove(q, k);
      assert SumRemaining(Without(q, k)) == SumRemaining(q) - q[k].remaining + o.remaining;
    } else {
      SumRemainingUpdate(q, k, o);
    }
  }

  lemma RescanAfter(s: Side, t: Side, r: nat, q: seq<Order>)
    requires SideOk(s) && TrueBest(s) && r < NUM_LEVELS && s.queues[r] != []
    requires t.queues == s.queues[r := q] && t.best == s.best
    ensures TrueBest(if Total(q) == 0 then Rescan(t) else t) <==>
            !(Total(q) == 0 && (r != s.best || q != [] || Veiled(s)))
  {
    hide QueuesOk, HomeOk, FreeOk, Veiled;
    assert s.best <= r;
    if Total(q) == 0 {
      if r == s.best && q == [] {
        RescanExact(t);
        VeiledBehind(s, t, []);
      } else {
        assert s.best < Rescan(t).best && Rescan(t).queues[s.best] != [];
      }
    }
  }

  // ----- The whole book -----

  lemma RestKeepsBest(b: Book, o: Order, request: u32)
    requires BookOk(b) && MINIMUM_BID <= o.price <= MAXIMUM_ASK && TrueBest(SideOf(b, o.isBid))
    ensures Exact(Rest(b, o, request).book) <==> TrueBest(SideOf(b, !o.isBid))
  {
    hide QueuesOk, HomeOk, FreeOk, IdsSide;
  }

  lemma SubmitKeepsBest(b: Book, c: Command)
    requires BookOk(b) && Exact(b) && c.Submit?
    ensures Exact(Apply(b, c).book) <==> !Hides(b, c)
  {
    hide SideOk, MatchSide, IdsSide, EmptyBefore, Rest, Passes;
    if Accepted(c) {
      var taker := Taker(c.client, Wrap(b.accepted), c.quantity);
      MatchKeepsBest(SideOf(b, !c.isBid), b.ids, RankOf(!c.isBid, c.price), taker, c.quantity);
      AfterMatchOk(b, c.price, c.quantity, c.isBid, c.client);
      var m := MatchIncoming(b, c.price, c.quantity, c.isBid, c.client);
      if 0 < m.left {
        var o := Incoming(b, c.price, c.quantity, m.left, c.isBid, c.client);
        RestKeepsBest(AfterMatch(b, c.isBid, m), o, c.request);
      }
    }
  }

  lemma CancelOrderKeepsBest(b: Book, c: Command)
    requires BookOk(b) && Exact(b) && c.Cancel?
    ensures Exact(Apply(b, c).book) <==> !Hides(b, c)
  {
    hide QueuesOk, HomeOk, FreeOk, IdsSide, Lookup, CancelledSide, EmptyBefore, Veiled;
    var p := Lookup(b, c.id);
    if p.At? && OrderAt(b, p).clientId == c.client {
      CancelKeepsBest(SideOf(b, p.isBid), p.r, p.k);
    }
  }

  lemma AmendKeepsBest(b: Book, c: Command)
    requires BookOk(b) && Exact(b) && c.Amend?
    ensures Exact(Apply(b, c).book) <==> !Hides(b, c)
  {
    hide QueuesOk, HomeOk, FreeOk, IdsSide, Lookup, ReducedSide, EmptyBefore, Unseats;
    var p := Lookup(b, c.id);
    if p.At? {
      var o := OrderAt(b, p);
      if o.clientId == c.client && Amendable(o, c.newQuantity) && c.newQuantity - o.cumulative != o.remaining {
        ReduceKeepsBest(SideOf(b, p.isBid), p.r, p.k, Resized(o, c.newQuantity));
      }
    }
  }

  /** From an exact book, a request leaves an exact book if and only if it is not one that hides
      orders. */
  lemma ApplyKeepsBest(b: Book, c: Command)
    requires BookOk(b) && Exact(b)
    ensures Exact(Apply(b, c).book) <==> !Hides(b, c)
  {
    hide BookOk, Lookup, Apply, Hides, Exact;
    match c
    case Submit(_, _, _, _, _) => SubmitKeepsBest(b, c);
    case Cancel(_, _, _) => CancelOrderKeepsBest(b, c);
    case Amend(_, _, _, _) => AmendKeepsBest(b, c);
  }

  /** An amendment that takes the last order out of a level that is not its side's cached best. */
  predicate EmptiesOther(b: Book, c: Command)
    requires BookOk(b)
  {
    && c.Amend?
    && var p := Lookup(b, c.id);
    && p.At?
    && OrderAt(b, p).clientId == c.client
    && c.newQuantity == OrderAt(b, p).cumulative
    && |SideOf(b, p.isBid).queues[p.r]| == 1
    && p.r != SideOf(b, p.isBid).best
  }

  /** While totals do not wrap, only an amendment that empties another level hides orders. */
  lemma HidesUnwrapped(b: Book, c: Command)
    requires BookOk(b) && NoWraps(b) && Exact(b)
    ensures Hides(b, c) <==> EmptiesOther(b, c)
  {
    hide QueuesOk, HomeOk, FreeOk, IdsSide, Lookup, NoWrap, Unseats, Veiled, Passes;
    match c
    case Submit(_, quantity, isBid, _, _) =>
      NothingVeiled(SideOf(b, !isBid), RankOf(!isBid, c.price), quantity);
    case Cancel(_, _, id) =>
      var p := Lookup(b, id);
      if p.At? {
        NothingVeiled(SideOf(b, p.isBid), 0, 0);
      }
    case Amend(_, _, id, newQuantity) =>
      var p := Lookup(b, id);
      LookupFinds(b, id);
      if p.At? && Amendable(OrderAt(b, p), newQuantity) {
        UnseatsUnwrapped(SideOf(b, p.isBid), p.r, p.k, newQuantity - OrderAt(b, p).cumulative);
      }
  }

  lemma NothingVeiled(s: Side, limit: int, qty: nat)
    requires SideOk(s) && NoWrap(s.queues)
    ensures !Veiled(s) && !Passes(s, limit, qty)
  {
    hide HomeOk, FreeOk, Within, OfferedBefore;
    forall r: nat | r < NUM_LEVELS ensures Total(s.queues[r]) == 0 <==> s.queues[r] == [] {
      LevelTotalZero(s, r);
    }
  }

  lemma UnseatsUnwrapped(s: Side, r: nat, k: nat, remaining: u32)
    requires SideOk(s) && NoWrap(s.queues) && r < NUM_LEVELS && k < |s.queues[r]|
    requires remaining <= s.queues[r][k].remaining
    ensures Unseats(s, r, k, remaining) <==> remaining == 0 && |s.queues[r]| == 1 && r != s.best
  {
    hide QueuesOk, HomeOk, FreeOk, Veiled;
    NothingVeiled(s, 0, 0);
    var q := s.queues[r];
    SumRemainingRemove(q, k);
    var rest := Without(q, k);
    if rest != [] {
      PlaceOk(s, r, if k == 0 then 1 else 0);
      assert rest[0] == q[if k == 0 then 1 else 0];
    }
  }

  // ----- Crossing -----

  /** Every bid price is below every ask price. */
  predicate NotCrossed(b: Book) {
    forall i, j :: 0 <= i < |b.bids.queues| && 0 <= j < |b.asks.queues|
                   && b.bids.queues[i] != [] && b.asks.queues[j] != [] ==>
                     PriceOf(true, i) < PriceOf(false, j)
  }

  /** No queue that was empty has become non-empty. */
  predicate Thinner(s: Side, t: Side) {
    && |t.queues| == |s.queues|
    && forall r :: 0 <= r < |s.queues| && s.queues[r] == [] ==> t.queues[r] == []
  }

  lemma ThinnerNotCrossed(b: Book, b': Book)
    requires NotCrossed(b) && Thinner(b.bids, b'.bids) && Thinner(b.asks, b'.asks)
    ensures NotCrossed(b')
  {
  }

  /** A submission that wants more than it is offered within its limit, rests, and leaves hidden
      orders within its limit on the other side. */
  predicate Crosses(b: Book, c: Command) {
    && Accepted(c)
    && SideOf(b, c.isBid).free != []
    && var s := SideOf(b, !c.isBid);
    && var limit := RankOf(!c.isBid, c.price);
    && OfferedBefore(s, limit + 1) < c.quantity
    && HidesWithin(s, limit)
  }

  predicate HidesWithin(s: Side, limit: int) {
    exists r :: 0 <= r <= limit && Hidden(s, r)
  }

  /** On side t, the levels within the limit that have orders are those hidden on side s. */
  predicate OnlyHidden(s: Side, t: Side, limit: int) {
    && |t.queues| == |s.queues|
    && (forall r :: 0 <= r < |s.queues| && Hidden(s, r) ==> t.queues[r] != [])
    && (forall r :: 0 <= r < |s.queues| && r <= limit && t.queues[r] != [] ==> Hidden(s, r))
  }

  /** An order that was matched before it rests does not cross the other side... */
  lemma RestNotCrossed(b: Book, o: Order, request: u32)
    requires BookOk(b) && NotCrossed(b) && MINIMUM_BID <= o.price <= MAXIMUM_ASK
    requires EmptyBefore(SideOf(b, !o.isBid).queues, RankOf(!o.isBid, o.price) + 1)
    ensures NotCrossed(Rest(b, o, request).book)
  {
    hide QueuesOk, HomeOk, FreeOk, IdsSide;
    var out := Rest(b, o, request).book;
    var r := RankOf(o.isBid, o.price);
    forall i, j | 0 <= i < NUM_LEVELS && 0 <= j < NUM_LEVELS && out.bids.queues[i] != [] && out.asks.queues[j] != []
      ensures PriceOf(true, i) < PriceOf(false, j)
    {
      if o.isBid && i == r {
        assert b.asks.queues[j] != [];
      } else if !o.isBid && j == r {
        assert b.bids.queues[i] != [];
      }
    }
  }

  /** ... and crosses it if orders are left within its limit. */
  lemma RestCrosses(b: Book, o: Order, request: u32, r: nat)
    requires BookOk(b) && MINIMUM_BID <= o.price <= MAXIMUM_ASK && SideOf(b, o.isBid).free != []
    requires r <= RankOf(!o.isBid, o.price) && SideOf(b, !o.isBid).queues[r] != []
    ensures !NotCrossed(Rest(b, o, request).book)
  {
    hide QueuesOk, HomeOk, FreeOk, IdsSide, NotCrossed;
    var out := Rest(b, o, request).book;
    var own := RankOf(o.isBid, o.price);
    assert SideOf(out, o.isBid).queues[own] != [];
    assert SideOf(out, !o.isBid) == SideOf(b, !o.isBid);
    Crossing(out, if o.isBid then own else r, if o.isBid then r else own);
  }

  lemma Crossing(b: Book, i: nat, j: nat)
    requires i < |b.bids.queues| && j < |b.asks.queues| && b.bids.queues[i] != [] && b.asks.queues[j] != []
    requires PriceOf(true, i) >= PriceOf(false, j)
    ensures !NotCrossed(b)
  {
  }

  /** A taker is left with something exactly when it is offered less within its limit; then only
      hidden orders remain there. */
  lemma MatchLeftover(s: Side, ids: map<u32, nat>, limit: int, taker: Taker, qty: nat)
    requires SideOk(s) && qty <= taker.total && limit < NUM_LEVELS
    ensures var m := MatchSide(s, ids, limit, taker, qty);
            && Thinner(s, m.side)
            && (0 < m.left <==> OfferedBefore(s, limit + 1) < qty)
            && (0 < m.left ==> OnlyHidden(s, m.side, limit))
  {
    hide QueuesOk, HomeOk, FreeOk, MatchSide, Exposed, FillQueue;
    var m := MatchSide(s, ids, limit, taker, qty);
    MatchSideFrame(s, ids, limit, taker, qty);
    MatchIsGreedy(s, ids, limit, taker, qty);
    var os := Exposed(Offered(s), 0, limit);
    FillConserves(os, qty);
    var f := FillQueue(os, qty);
    assert f.rest == [] ==> SumRemaining(f.rest) == 0;
    assert Thinner(s, m.side);
    if 0 < m.left {
      forall r | 0 <= r <= limit && m.side.queues[r] != [] ensures Hidden(s, r) {
        assert Hidden(m.side, r);
      }
    }
  }

  lemma SubmitCrossed(b: Book, c: Command)
    requires BookOk(b) && NotCrossed(b) && Accepted(c)
    ensures NotCrossed(Apply(b, c).book) <==> !Crosses(b, c)
  {
    hide SideOk, MatchSide, IdsSide, EmptyBefore, Rest, NotCrossed, OfferedBefore, Hidden, HidesWithin, OnlyHidden;
    var s := SideOf(b, !c.isBid);
    var limit := RankOf(!c.isBid, c.price);
    MatchLeftover(s, b.ids, limit, Taker(c.client, Wrap(b.accepted), c.quantity), c.quantity);
    AfterMatchOk(b, c.price, c.quantity, c.isBid, c.client);
    var m := MatchIncoming(b, c.price, c.quantity, c.isBid, c.client);
    var b1 := AfterMatch(b, c.isBid, m);
    SideLength(s);
    SideLength(m.side);
    ThinnerNotCrossed(b, b1);
    if 0 < m.left {
      var o := Incoming(b, c.price, c.quantity, m.left, c.isBid, c.client);
      RestCrossed(b1, s, o, c.request);
    }
  }

  lemma RestCrossed(b: Book, s: Side, o: Order, request: u32)
    requires BookOk(b) && NotCrossed(b) && MINIMUM_BID <= o.price <= MAXIMUM_ASK
    requires OnlyHidden(s, SideOf(b, !o.isBid), RankOf(!o.isBid, o.price))
    ensures NotCrossed(Rest(b, o, request).book) <==>
            !(SideOf(b, o.isBid).free != [] && HidesWithin(s, RankOf(!o.isBid, o.price)))
  {
    hide QueuesOk, HomeOk, FreeOk, IdsSide, NotCrossed, Hidden;
    var limit := RankOf(!o.isBid, o.price);
    if SideOf(b, o.isBid).free != [] {
      if HidesWithin(s, limit) {
        var r :| 0 <= r <= limit && Hidden(s, r);
        RestCrosses(b, o, request, r);
      } else {
        RestNotCrossed(b, o, request);
      }
    }
  }

  lemma StayThin(s: Side)
    ensures Thinner(s, s)
  {
  }

  lemma CancelledThin(s: Side, r: nat, k: nat)
    requires SideOk(s) && r < NUM_LEVELS && k < |s.queues[r]|
    ensures Thinner(s, CancelledSide(s, r, k)) && CancelledSide(s, r, k).isBid == s.isBid
  {
  }

  lemma ReducedThin(s: Side, r: nat, k: nat, o: Order)
    requires SideOk(s) && r < NUM_LEVELS && k < |s.queues[r]|
    ensures Thinner(s, ReducedSide(s, r, k, o)) && ReducedSide(s, r, k, o).isBid == s.isBid
  {
  }

  lemma AmendedThin(b: Book, c: Command, p: Place)
    requires BookOk(b) && c.Amend? && ValidPlace(b, p)
    ensures OrderAt(b, p).cumulative <= c.newQuantity ==>
              var s := SideOf(b, p.isBid);
              var t := ReducedSide(s, p.r, p.k, Resized(OrderAt(b, p), c.newQuantity));
              Thinner(s, t) && t.isBid == s.isBid
  {
    hide QueuesOk, HomeOk, FreeOk, IdsSide, Thinner, ReducedSide;
    if OrderAt(b, p).cumulative <= c.newQuantity {
      ReducedThin(SideOf(b, p.isBid), p.r, p.k, Resized(OrderAt(b, p), c.newQuantity));
    }
  }

  lemma CancelNotCrossed(b: Book, c: Command)
    requires BookOk(b) && NotCrossed(b) && c.Cancel?
    ensures NotCrossed(Apply(b, c).book)
  {
    hide QueuesOk, HomeOk, FreeOk, IdsSide, Lookup, NotCrossed, Thinner, CancelledSide;
    var p := Lookup(b, c.id);
    StayThin(b.bids);
    StayThin(b.asks);
    if p.At? {
      CancelledThin(SideOf(b, p.isBid), p.r, p.k);
    }
    ThinnerNotCrossed(b, Apply(b, c).book);
  }

  lemma AmendNotCrossed(b: Book, c: Command)
    requires BookOk(b) && NotCrossed(b) && c.Amend?
    ensures NotCrossed(Apply(b, c).book)
  {
    hide QueuesOk, HomeOk, FreeOk, IdsSide, Lookup, NotCrossed, Thinner, ReducedSide;
    var p := Lookup(b, c.id);
    StayThin(b.bids);
    StayThin(b.asks);
    if p.At? {
      AmendedThin(b, c, p);
    }
    ThinnerNotCrossed(b, Apply(b, c).book);
  }

  /** A request crosses an uncrossed book if and only if it is a submission that rests with hidden
      orders of the other side within its limit. */
  lemma ApplyCrossed(b: Book, c: Command)
    requires BookOk(b) && NotCrossed(b)
    ensures NotCrossed(Apply(b, c).book) <==> !Crosses(b, c)
  {
    hide BookOk, NotCrossed;
    match c
    case Submit(_, _, _, _, _) =>
      if Accepted(c) {
        SubmitCrossed(b, c);
      }
    case Cancel(_, _, _) => CancelNotCrossed(b, c);
    case Amend(_, _, _, _) => AmendNotCrossed(b, c);
  }

  /** From an exact book, a request that crosses the book also hides orders. */
  lemma CrossingHides(b: Book, c: Command)
    requires BookOk(b) && Exact(b) && Crosses(b, c)
    ensures Hides(b, c)
  {
    hide SideOk, IdsSide, OfferedBefore, Hidden, Within, Offered;
    var s, limit := SideOf(b, !c.isBid), RankOf(!c.isBid, c.price);
    SideLength(s);
    var r :| 0 <= r <= limit && Hidden(s, r);
    HiddenBehind(s, r);
    OfferedFurther(s, r, limit);
    assert Passes(s, limit, c.quantity);
  }

  lemma HiddenBehind(s: Side, r: int)
    requires TrueBest(s) && Hidden(s, r)
    ensures s.best < r < |s.queues|
  {
  }

  lemma OfferedFurther(s: Side, r: int, limit: int)
    requires 0 <= r <= limit < |s.queues|
    ensures Within(s, limit, r) && OfferedBefore(s, r) <= OfferedBefore(s, limit + 1)
  {
    hide Exposed;
    ExposedSplit(Offered(s), 0, r - 1, limit);
    SumRemainingConcat(Exposed(Offered(s), 0, r - 1), Exposed(Offered(s), r, limit));
  }

  // ----- Runs -----

  /** A run without requests that hide orders. */
  predicate Careful(cs: seq<Command>) {
    forall n :: 0 <= n < |cs| ==> !Hides(Run(cs[..n]), cs[n])
  }

  lemma CarefulPrefix(cs: seq<Command>, n: nat)
    requires Careful(cs) && n <= |cs|
    ensures Careful(cs[..n])
  {
    hide BookOk, Hides, Run;
    var prefix := cs[..n];
    forall i | 0 <= i < n ensures !Hides(Run(prefix[..i]), prefix[i]) {
      assert prefix[..i] == cs[..i];
    }
  }

  lemma RunStep(cs: seq<Command>, c: Command)
    ensures Run(cs + [c]) == Apply(Run(cs), c).book
  {
    hide BookOk, Apply;
    assert (cs + [c])[..|cs|] == cs;
  }

  lemma RunPrefixStep(cs: seq<Command>, n: nat)
    requires n < |cs|
    ensures Run(cs[..n + 1]) == Apply(Run(cs[..n]), cs[n]).book
  {
    hide BookOk, Apply, Run;
    RunStep(cs[..n], cs[n]);
    assert cs[..n] + [cs[n]] == cs[..n + 1];
  }

  /** On every careful run the cached best prices are exact and the book is not crossed. */
  lemma {:induction false} RunExact(cs: seq<Command>)
    requires Careful(cs)
    ensures Exact(Run(cs)) && NotCrossed(Run(cs))
  {
    hide BookOk, Hides, Apply, Crosses;
    if cs != [] {
      var n := |cs| - 1;
      var b, c := Run(cs[..n]), cs[n];
      CarefulPrefix(cs, n);
      RunExact(cs[..n]);
      ApplyKeepsBest(b, c);
      ApplyCrossed(b, c);
      if Crosses(b, c) {
        CrossingHides(b, c);
      }
    }
  }

  /** The cached best prices are exact throughout a run if and only if no request of the run hides
      orders. */
  lemma ExactThroughout(cs: seq<Command>)
    ensures (forall n :: 0 <= n <= |cs| ==> Exact(Run(cs[..n]))) <==> Careful(cs)
  {
    hide BookOk, Hides, Apply, Exact, Run;
    if Careful(cs) {
      forall n | 0 <= n <= |cs| ensures Exact(Run(cs[..n])) {
        CarefulPrefix(cs, n);
        RunExact(cs[..n]);
      }
    }
    if forall n :: 0 <= n <= |cs| ==> Exact(Run(cs[..n])) {
      forall n | 0 <= n < |cs| ensures !Hides(Run(cs[..n]), cs[n]) {
        ApplyKeepsBest(Run(cs[..n]), cs[n]);
        RunPrefixStep(cs, n);
      }
    }
  }

  /** The book is uncrossed throughout a run if and only if no request of the run rests with hidden
      orders of the other side within its limit. */
  lemma UncrossedThroughout(cs: seq<Command>)
    ensures (forall n :: 0 <= n <= |cs| ==> NotCrossed(Run(cs[..n]))) <==>
            (forall n :: 0 <= n < |cs| ==> !Crosses(Run(cs[..n]), cs[n]))
  {
    hide BookOk, Crosses, Apply, NotCrossed, Run;
    if forall n :: 0 <= n < |cs| ==> !Crosses(Run(cs[..n]), cs[n]) {
      forall n | 0 <= n <= |cs| ensures NotCrossed(Run(cs[..n])) {
        UncrossedTo(cs, n);
      }
    }
    if forall n :: 0 <= n <= |cs| ==> NotCrossed(Run(cs[..n])) {
      forall n | 0 <= n < |cs| ensures !Crosses(Run(cs[..n]), cs[n]) {
        ApplyCrossed(Run(cs[..n]), cs[n]);
        RunPrefixStep(cs, n);
      }
    }
  }

  lemma {:induction false} UncrossedTo(cs: seq<Command>, n: nat)
    requires n <= |cs| && forall i :: 0 <= i < |cs| ==> !Crosses(Run(cs[..i]), cs[i])
    ensures NotCrossed(Run(cs[..n]))
  {
    hide BookOk, Crosses, Apply, NotCrossed, Run;
    if n == 0 {
      EmptyUncrossed(cs);
    } else {
      UncrossedTo(cs, n - 1);
      ApplyCrossed(Run(cs[..n - 1]), cs[n - 1]);
      RunPrefixStep(cs, n - 1);
    }
  }

  lemma EmptyUncrossed(cs: seq<Command>)
    ensures NotCrossed(Run(cs[..0]))
  {
  }
}
