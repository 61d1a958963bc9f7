/** What a submission does to its own side and what it reports, said of the lists of resting orders
    and of the callbacks alone. */
module Submissions {
  import opened Types
  import opened Matching
  import opened BookModel
  import opened PriceTime
  import opened BestPrice
  import opened Ranking
  import opened Fairness
  import opened Ledger
  import opened Requests

  // ----- A slot is free exactly when fewer than 100,000 orders rest -----

  /** A list that holds every number below n exactly once. */
  ghost predicate Enumerates(a: seq<nat>, n: nat) {
    && (forall i :: 0 <= i < |a| ==> a[i] < n)
    && (forall i, j :: 0 <= i < j < |a| ==> a[i] != a[j])
    && (forall h :: 0 <= h < n ==> h in a)
  }

  lemma {:induction false} EnumeratesAll(a: seq<nat>, n: nat)
    requires Enumerates(a, n)
    ensures |a| == n
  {
    if n > 0 {
      assert n - 1 in a;
      var i :| 0 <= i < |a| && a[i] == n - 1;
      var rest := Without(a, i);
      forall h | 0 <= h < n - 1 ensures h in rest {
        assert h in a;
        var j :| 0 <= j < |a| && a[j] == h;
        assert rest[if j > i then j - 1 else j] == h;
      }
      EnumeratesAll(rest, n - 1);
    }
  }

  function HandlesOf(os: seq<Order>): seq<nat> {
    seq(|os|, i requires 0 <= i < |os| => os[i].handle)
  }

  /** A resting order's slot is in use, and no two orders share one. */
  lemma RestingApart(s: Side)
    requires SideOk(s)
    ensures var os := Resting(s);
            && (forall i :: 0 <= i < |os| ==> os[i].handle in s.home)
            && (forall i, j :: 0 <= i < j < |os| ==> os[i].handle != os[j].handle)
  {
    hide HomeOk, FreeOk, Exposed;
    var os := Resting(s);
    forall i | 0 <= i < |os| ensures os[i].handle in s.home {
      var r, x := Locate(s.queues, 0, i);
      PlaceOk(s, r, x);
    }
    forall i, j | 0 <= i < j < |os| ensures os[i].handle != os[j].handle {
      var r, x := Locate(s.queues, 0, i);
      var q, y := Locate(s.queues, 0, j);
      assert QueueOk(s.isBid, s.home, r, s.queues[r]);
      PlaceOk(s, r, x);
      PlaceOk(s, q, y);
    }
  }

  lemma HomeRests(s: Side, h: nat)
    requires SideOk(s) && h in s.home
    ensures h < MAX_ORDERS && exists i :: 0 <= i < |Resting(s)| && Resting(s)[i].handle == h
  {
    hide QueuesOk, FreeOk, Exposed;
    var r: int := s.home[h];
    var x :| 0 <= x < |s.queues[r]| && s.queues[r][x].handle == h;
    AroundItself(s.queues, r);
    var i := |Exposed(s.queues, 0, r - 1)| + x;
    assert Resting(s)[i] == s.queues[r][x];
  }

  /** The pool's slots are shared out between the resting orders and the free list. */
  lemma PoolShared(s: Side)
    requires SideOk(s)
    ensures |Resting(s)| + |s.free| == MAX_ORDERS
  {
    hide QueuesOk, HomeOk, Resting;
    RestingApart(s);
    var os := Resting(s);
    var hs := HandlesOf(os);
    var all := hs + s.free;
    forall i | 0 <= i < |hs| ensures hs[i] < MAX_ORDERS && hs[i] in s.home {
      HomeRests(s, os[i].handle);
    }
    forall h | 0 <= h < MAX_ORDERS ensures h in all {
      if h in s.home {
        HomeRests(s, h);
        var i :| 0 <= i < |os| && os[i].handle == h;
        assert all[i] == h;
      } else {
        var i :| 0 <= i < |s.free| && s.free[i] == h;
        assert all[|hs| + i] == h;
      }
    }
    EnumeratesAll(all, MAX_ORDERS);
  }

  // ----- What matching reports -----

  /** Trades, each followed by an update of its level if it is the last one there. */
  function WithUpdates(trades: seq<Event>, isBid: bool, resting: seq<Order>): seq<Event>
    requires forall i :: 0 <= i < |trades| ==> trades[i].Trade?
  {
    if trades == [] then []
    else
      var price := trades[0].price;
      [trades[0]]
      + (if |trades| == 1 || trades[1].price != price
         then [LevelUpdate(isBid, price, Wrap(VolumeAt(resting, price)))] else [])
      + WithUpdates(trades[1..], isBid, resting)
  }

  lemma {:induction false} AllTrades(events: seq<Event>)
    ensures forall i :: 0 <= i < |OnlyTrades(events)| ==> OnlyTrades(events)[i].Trade?
  {
    if events != [] {
      AllTrades(events[1..]);
    }
  }

  /** The next trade, if there is one, is at the best price. */
  lemma FirstTrade(s: Side, ids: map<u32, nat>, limit: int, taker: Taker, qty: nat)
    requires SideOk(s) && qty <= taker.total
    ensures var trades := OnlyTrades(MatchSide(s, ids, limit, taker, qty).events);
            if CanMatch(s, limit, qty)
            then trades != [] && trades[0].Trade? && trades[0].price == PriceOf(s.isBid, s.best)
            else trades == []
  {
    hide SideOk, MatchOne;
    if CanMatch(s, limit, qty) {
      var m := MatchOne(s, ids, taker, qty);
      MatchOneTrades(s, ids, taker, qty);
      OnlyTradesConcat(m.events, MatchSide(m.side, m.ids, limit, taker, m.left).events);
    }
  }

  /** One trade and its pending update. */
  lemma OneReport(s: Side, ids: map<u32, nat>, limit: int, taker: Taker, qty: nat)
    requires SideOk(s) && qty <= taker.total && CanMatch(s, limit, qty)
    ensures var m := MatchOne(s, ids, taker, qty);
            var n := MatchSide(m.side, m.ids, limit, taker, m.left);
            var price := PriceOf(s.isBid, s.best);
            && |m.events| > 0 && m.events[0].Trade? && m.events[0].price == price
            && OnlyTrades(m.events) == [m.events[0]]
            && m.events == [m.events[0]] + (if CanMatch(m.side, limit, m.left) && m.side.best == s.best then []
                                            else [LevelUpdate(s.isBid, price, Wrap(VolumeAt(Resting(n.side), price)))])
  {
    hide QueuesOk, HomeOk, FreeOk, MatchOne, ScanFrom, VolumeAt, Resting, OnlyTrades, Framed, Total;
    var r := s.best;
    PlaceOk(s, r, 0);
    var m := MatchOne(s, ids, taker, qty);
    var n := MatchSide(m.side, m.ids, limit, taker, m.left);
    MatchOneTrades(s, ids, taker, qty);
    MatchSideFrame(m.side, m.ids, limit, taker, m.left);
    EmptyStays(m.side, n.side, limit, r);
    TotalIsVolume(n.side, r);
    if qty < s.queues[r][0].remaining {
      MatchOnePart(s, ids, taker, qty);
    } else {
      MatchOneWhole(s, ids, taker, qty);
      assert |RemoveAt(s, r, 0).queues[r]| == |s.queues[r]| - 1;
      RescanLeaves(RemoveAt(s, r, 0), r);
    }
  }

  lemma RescanLeaves(s: Side, r: nat)
    requires |s.queues| == NUM_LEVELS && s.best == r < NUM_LEVELS
    ensures s.queues[r] == [] ==> Rescan(s).best != r
    ensures Rescan(s).queues == s.queues
  {
  }

  lemma EmptyStays(s: Side, t: Side, limit: int, r: nat)
    requires Framed(s, t, limit) && r < |s.queues|
    ensures s.queues[r] == [] ==> t.queues[r] == []
  {
  }

  /** Matching reports its trades in order, and each level it traded at once, after the last trade
      there, with what is left at that price. */
  lemma {:induction false} MatchReports(s: Side, ids: map<u32, nat>, limit: int, taker: Taker, qty: nat)
    requires SideOk(s) && qty <= taker.total
    ensures var m := MatchSide(s, ids, limit, taker, qty);
            && (forall i :: 0 <= i < |OnlyTrades(m.events)| ==> OnlyTrades(m.events)[i].Trade?)
            && m.events == WithUpdates(OnlyTrades(m.events), s.isBid, Resting(m.side))
    decreases qty
  {
    hide SideOk, MatchOne, VolumeAt, Resting, OnlyTrades;
    var whole := MatchSide(s, ids, limit, taker, qty);
    AllTrades(whole.events);
    FirstTrade(s, ids, limit, taker, qty);
    if CanMatch(s, limit, qty) {
      var m := MatchOne(s, ids, taker, qty);
      var n := MatchSide(m.side, m.ids, limit, taker, m.left);
      OneReport(s, ids, limit, taker, qty);
      MatchReports(m.side, m.ids, limit, taker, m.left);
      FirstTrade(m.side, m.ids, limit, taker, m.left);
      OnlyTradesConcat(m.events, n.events);
      assert OnlyTrades(whole.events)[1..] == OnlyTrades(n.events);
    }
  }

  // ----- Submissions -----

  /** Where a new order of this price goes: behind every order that is not worse. */
  predicate Behind(resting: seq<Order>, k: nat, isBid: bool, price: int) {
    && k <= |resting|
    && (forall i :: 0 <= i < k ==> !Better(isBid, price, resting[i].price))
    && (forall i :: k <= i < |resting| ==> Better(isBid, price, resting[i].price))
  }

  /** What follows the reports of the matching, when `left` of the order was not filled. */
  ghost predicate RestAnswer(b: Book, c: Command, k: nat, left: nat, b': Book, tail: seq<Event>)
    requires Accepted(c) && left <= c.quantity
  {
    var own, own' := SideOf(b, c.isBid), SideOf(b', c.isBid);
    if left == 0 then own' == own && tail == []
    else if |Resting(own)| == MAX_ORDERS then own' == own && tail == [Error(c.client, c.request, BookFull)]
    else
      && |tail| == 2
      && tail[1].Inserted?
      && var o := tail[1].order;
      && tail[1].request == c.request
      && o == Order(o.handle, c.client, Wrap(b.accepted), c.price, c.quantity, left, c.quantity - left, c.isBid)
      && (forall i :: 0 <= i < |Resting(own)| ==> Resting(own)[i].handle != o.handle)
      && Behind(Resting(own), k, c.isBid, c.price)
      && Resting(own') == Resting(own)[..k] + [o] + Resting(own)[k..]
      && tail[0] == LevelUpdate(c.isBid, c.price, Wrap(VolumeAt(Resting(own'), c.price)))
  }

  /** The order of the own side's list after an insertion. */
  lemma InsertedAt(s: Side, r: nat, o: Order) returns (k: nat)
    requires SideOk(s) && r < NUM_LEVELS
    ensures Behind(Resting(s), k, s.isBid, PriceOf(s.isBid, r))
    ensures |s.queues| == NUM_LEVELS
    ensures Exposed(s.queues[r := s.queues[r] + [o]], 0, NUM_LEVELS - 1) == Resting(s)[..k] + [o] + Resting(s)[k..]
  {
    hide QueuesOk, HomeOk, FreeOk, Exposed;
    AroundItself(s.queues, r);
    Around(s.queues, r, s.queues[r] + [o]);
    var p, q, t := Exposed(s.queues, 0, r - 1), s.queues[r], Exposed(s.queues, r + 1, NUM_LEVELS - 1);
    k := |p| + |q|;
    assert p + (q + [o]) + t == (p + q + t)[..k] + [o] + (p + q + t)[k..];
    ExposedRanks(s, 0, r - 1);
    QueueRanks(s, r);
    ExposedRanks(s, r + 1, NUM_LEVELS - 1);
  }

  lemma RestMeaning(b: Book, own: Book, c: Command, left: nat) returns (k: nat)
    requires BookOk(b) && Accepted(c) && 0 < left <= c.quantity && SideOf(b, c.isBid) == SideOf(own, c.isBid)
    ensures var o := Order(0, c.client, Wrap(own.accepted), c.price, c.quantity, left, c.quantity - left, c.isBid);
            var out := Rest(b, o, c.request);
            && RestAnswer(own, c, k, left, out.book, out.events)
            && SideOf(out.book, !c.isBid) == SideOf(b, !c.isBid)
  {
    hide SideOk, IdsSide, Exposed, VolumeAt, LearnId, Total, Added;
    BookSides(b);
    var s, r := SideOf(b, c.isBid), RankOf(c.isBid, c.price);
    var o := Order(0, c.client, Wrap(own.accepted), c.price, c.quantity, left, c.quantity - left, c.isBid);
    k := 0;
    PoolShared(s);
    if s.free != [] {
      var o' := o.(handle := s.free[0]);
      k := InsertedAt(s, r, o');
      AddedOk(s, r, o');
      AddedForm(s, r, o');
      TotalIsVolume(Added(s, r, o'), r);
      FreshHandle(s);
    }
  }

  lemma AddedForm(s: Side, r: nat, o: Order)
    requires r < |s.queues| && s.free != []
    ensures Added(s, r, o).queues == s.queues[r := s.queues[r] + [o]] && Added(s, r, o).isBid == s.isBid
  {
  }

  lemma FreshHandle(s: Side)
    requires SideOk(s) && s.free != []
    ensures forall i :: 0 <= i < |Resting(s)| ==> Resting(s)[i].handle != s.free[0]
  {
    hide QueuesOk, HomeOk, Resting;
    RestingApart(s);
  }

  /** The trades come first, with the levels they leave; then what they do not fill rests or is
      refused. */
  ghost predicate SubmitAnswer(b: Book, c: Command, k: nat, out: Outcome)
    requires Accepted(c)
  {
    var trades := OnlyTrades(out.events);
    var left := c.quantity - TradedVolume(trades);
    && (forall i :: 0 <= i < |trades| ==> trades[i].Trade?)
    && 0 <= left <= c.quantity
    && var reports := WithUpdates(trades, !c.isBid, Resting(SideOf(out.book, !c.isBid)));
    && |reports| <= |out.events|
    && out.events[..|reports|] == reports
    && RestAnswer(b, c, k, left, out.book, out.events[|reports|..])
  }

  /** Every accepted submission, on every run: it reports its trades with the levels they leave, and
      what the trades do not fill rests last at its price with the order's own quantities, or is
      refused when 100,000 orders rest already. */
  lemma SubmitMeaning(cs: seq<Command>, c: Command) returns (k: nat)
    requires Accepted(c)
    ensures SubmitAnswer(Run(cs), c, k, Apply(Run(cs), c))
  {
    hide *;
    k := SubmitAnswers(Run(cs), c);
  }

  lemma {:induction false} TradedOnly(events: seq<Event>)
    ensures TradedVolume(OnlyTrades(events)) == TradedVolume(events)
  {
    if events != [] {
      var tail := OnlyTrades(events[1..]);
      TradedOnly(events[1..]);
      assert ([events[0]] + tail)[1..] == tail && [] + tail == tail;
    }
  }

  lemma SubmitAnswers(b: Book, c: Command) returns (k: nat)
    requires BookOk(b) && Accepted(c)
    ensures SubmitAnswer(b, c, k, Apply(b, c))
  {
    hide SideOk, IdsSide, MatchSide, OnlyTrades, TradedVolume, WithUpdates, Resting, VolumeAt, RestAnswer, Rest;
    BookSides(b);
    var m, out := MatchIncoming(b, c.price, c.quantity, c.isBid, c.client), Apply(b, c);
    var limit := RankOf(!c.isBid, c.price);
    MatchReports(SideOf(b, !c.isBid), b.ids, limit, TakerOf(b, c), c.quantity);
    MatchVolume(SideOf(b, !c.isBid), b.ids, limit, TakerOf(b, c), c.quantity);
    TradedOnly(m.events);
    SubmitTrades(b, c);
    AfterMatchOk(b, c.price, c.quantity, c.isBid, c.client);
    k := 0;
    if 0 < m.left {
      var b1 := AfterMatch(b, c.isBid, m);
      BookSides(b1);
      k := RestMeaning(b1, b, c, m.left);
      var tail := Rest(b1, Incoming(b, c.price, c.quantity, m.left, c.isBid, c.client), c.request).events;
      assert out.events == m.events + tail && out.events[|m.events|..] == tail;
    } else {
      assert out.events[|m.events|..] == [];
      NothingRests(b, c, out.book);
    }
  }

  lemma NothingRests(b: Book, c: Command, b': Book)
    requires Accepted(c) && SideOf(b', c.isBid) == SideOf(b, c.isBid)
    ensures RestAnswer(b, c, 0, 0, b', [])
  {
  }

  /** A rejected submission changes nothing; the quantity is checked before the price. */
  lemma RejectMeaning(cs: seq<Command>, c: Command)
    requires c.Submit? && !Accepted(c)
    ensures Apply(Run(cs), c).book == Run(cs)
    ensures Apply(Run(cs), c).events ==
            [Error(c.client, c.request, if c.quantity == 0 then InvalidVolume else InvalidPrice)]
  {
    hide BookOk, Run;
  }

  /** The cached best prices after an accepted submission: the own side's improves to the new order's
      price exactly when an order rests at a better price than the cached one; the other side's moves
      past exactly the levels up to which everything offered is within the limit and taken. */
  lemma SubmitBest(cs: seq<Command>, c: Command, r: int)
    requires Accepted(c) && 0 <= r < NUM_LEVELS
    ensures var b, out := Run(cs), Apply(Run(cs), c);
            var own, own', s, s' := SideOf(b, c.isBid), SideOf(out.book, c.isBid),
                                    SideOf(b, !c.isBid), SideOf(out.book, !c.isBid);
            var rank, limit := RankOf(c.isBid, c.price), RankOf(!c.isBid, c.price);
            && own'.best == (if Resting(own') != Resting(own) && (own.best == NUM_LEVELS || rank < own.best) then rank
                             else own.best)
            && (r < s'.best <==> Within(s, limit, r + 1) && OfferedBefore(s, r + 1) <= c.quantity)
  {
    hide BookOk, Run, Apply, Within, OfferedBefore, MatchSide, Resting;
    var b := Run(cs);
    BookSides(b);
    SubmitTrades(b, c);
    PassedLevel(SideOf(b, !c.isBid), b.ids, RankOf(!c.isBid, c.price), TakerOf(b, c), c.quantity, r);
    OwnBest(b, c);
  }

  lemma OwnBest(b: Book, c: Command)
    requires BookOk(b) && Accepted(c)
    ensures var own, own' := SideOf(b, c.isBid), SideOf(Apply(b, c).book, c.isBid);
            var rank := RankOf(c.isBid, c.price);
            own'.best == if Resting(own') != Resting(own) && (own.best == NUM_LEVELS || rank < own.best) then rank
                         else own.best
  {
    hide SideOk, IdsSide, MatchSide, Resting, LearnId, TradedVolume, OnlyTrades, WithUpdates, VolumeAt;
    BookSides(b);
    var m := MatchIncoming(b, c.price, c.quantity, c.isBid, c.client);
    var own := SideOf(b, c.isBid);
    if 0 < m.left && own.free != [] {
      var o := Incoming(b, c.price, c.quantity, m.left, c.isBid, c.client).(handle := own.free[0]);
      AddedLonger(own, RankOf(c.isBid, c.price), o);
    }
  }

  lemma AddedLonger(s: Side, r: nat, o: Order)
    requires SideOk(s) && r < NUM_LEVELS && s.free != []
    ensures Resting(Added(s, r, o)) != Resting(s)
  {
    hide QueuesOk, HomeOk, FreeOk, Exposed;
    var k := InsertedAt(s, r, o);
    assert |Resting(Added(s, r, o))| == |Resting(s)| + 1;
  }
}
