/** The market-data feed: level replicas built from updates, alone or on top of a snapshot. */
module MarketData {
  import opened Types
  import opened BookModel

  /** One side of a replica: the levels it holds, and the prices it has been told about. */
  datatype Half = Half(levels: map<int, u32>, known: set<int>)

  function SetLevel(levels: map<int, u32>, price: int, total: u32): map<int, u32> {
    if total == 0 then levels - {price} else levels[price := total]
  }

  function See(h: Half, isBid: bool, e: Event): Half {
    if e.LevelUpdate? && e.isBid == isBid then Half(SetLevel(h.levels, e.price, e.total), h.known + {e.price}) else h
  }

  function SeeAll(h: Half, isBid: bool, events: seq<Event>): Half
    decreases |events|
  {
    if events == [] then h else SeeAll(See(h, isBid, events[0]), isBid, events[1..])
  }

  lemma {:induction false} SeeAllConcat(h: Half, isBid: bool, a: seq<Event>, b: seq<Event>)
    ensures SeeAll(h, isBid, a + b) == SeeAll(SeeAll(h, isBid, a), isBid, b)
    decreases |a|
  {
    if a == [] {
      assert a + b == b;
    } else {
      assert (a + b)[1..] == a[1..] + b;
      SeeAllConcat(See(h, isBid, a[0]), isBid, a[1..], b);
    }
  }

  lemma SeeTwo(h: Half, isBid: bool, x: Event, y: Event)
    ensures SeeAll(h, isBid, [x]) == See(h, isBid, x)
    ensures SeeAll(h, isBid, [x, y]) == See(See(h, isBid, x), isBid, y)
  {
    assert [x][1..] == [] && [y][1..] == [];
    assert [x, y] == [x] + [y];
    SeeAllConcat(h, isBid, [x], [y]);
  }

  /** The replica holds price p exactly when the engine's total there is not 0, with that total. */
  predicate RightAt(h: Half, s: Side, p: int)
    requires |s.queues| == NUM_LEVELS && MINIMUM_BID <= p <= MAXIMUM_ASK
  {
    var t := Total(s.queues[RankOf(s.isBid, p)]);
    (p in h.levels <==> t != 0) && (p in h.levels ==> h.levels[p] == t)
  }

  /** Right at every known price except possibly `but`, and holding only known prices. */
  predicate RightBut(h: Half, s: Side, but: int) {
    && |s.queues| == NUM_LEVELS
    && (forall p :: p in h.levels ==> p in h.known)
    && (forall p :: p in h.known ==> MINIMUM_BID <= p <= MAXIMUM_ASK && (p != but ==> RightAt(h, s, p)))
  }

  predicate Right(h: Half, s: Side) {
    RightBut(h, s, 0)
  }

  lemma RightWeaken(h: Half, s: Side, but: int)
    requires Right(h, s)
    ensures RightBut(h, s, but)
  {
  }

  /** One queue changed and its total was announced. */
  lemma Announced(h: Half, s: Side, t: Side, r: nat)
    requires r < NUM_LEVELS && RightBut(h, s, PriceOf(s.isBid, r)) && t.isBid == s.isBid
    requires |t.queues| == NUM_LEVELS && t.queues == s.queues[r := t.queues[r]]
    ensures Right(See(h, s.isBid, LevelUpdate(s.isBid, PriceOf(s.isBid, r), Total(t.queues[r]))), t)
  {
  }

  /** One queue changed and nothing was announced yet. */
  lemma Unannounced(h: Half, s: Side, t: Side, r: nat)
    requires r < NUM_LEVELS && RightBut(h, s, PriceOf(s.isBid, r)) && t.isBid == s.isBid
    requires |t.queues| == NUM_LEVELS && t.queues == s.queues[r := t.queues[r]]
    ensures RightBut(h, t, PriceOf(s.isBid, r))
  {
  }

  // ----- Matching announces each level it touched -----

  lemma MatchOneSeen(h: Half, s: Side, ids: map<u32, nat>, taker: Taker, qty: nat)
    requires SideOk(s) && s.best < NUM_LEVELS && 0 < qty <= taker.total
    requires RightBut(h, s, PriceOf(s.isBid, s.best))
    ensures var m := MatchOne(s, ids, taker, qty);
            var h' := SeeAll(h, s.isBid, m.events);
            if m.left == 0 || m.side.best != s.best then Right(h', m.side)
            else RightBut(h', m.side, PriceOf(s.isBid, s.best))
  {
    hide QueuesOk, HomeOk, FreeOk, MatchOne, ScanFrom, RightBut;
    PlaceOk(s, s.best, 0);
    var r := s.best;
    var m := MatchOne(s, ids, taker, qty);
    if s.queues[r][0].remaining <= qty {
      MatchOneWhole(s, ids, taker, qty);
      RescanMoves(s, r);
    } else {
      MatchOnePart(s, ids, taker, qty);
    }
    assert m.side.queues == s.queues[r := m.side.queues[r]];
    Announced(h, s, m.side, r);
    Unannounced(h, s, m.side, r);
    assert m.events == [m.events[0]] || m.events == [m.events[0], m.events[1]];
    SeeTwo(h, s.isBid, m.events[0], if |m.events| == 2 then m.events[1] else m.events[0]);
  }

  lemma RescanMoves(s: Side, r: nat)
    requires SideOk(s) && s.best == r < NUM_LEVELS
    ensures var t := RemoveAt(s, r, 0); Rescan(t).best != r
  {
  }

  lemma {:induction false} MatchSeen(h: Half, s: Side, ids: map<u32, nat>, limit: int, taker: Taker, qty: nat)
    requires SideOk(s) && qty <= taker.total
    requires Right(h, s) || (CanMatch(s, limit, qty) && RightBut(h, s, PriceOf(s.isBid, s.best)))
    ensures var m := MatchSide(s, ids, limit, taker, qty);
            Right(SeeAll(h, s.isBid, m.events), m.side)
    decreases qty
  {
    hide SideOk, MatchOne, RightBut;
    if CanMatch(s, limit, qty) {
      if Right(h, s) {
        RightWeaken(h, s, PriceOf(s.isBid, s.best));
      }
      var m := MatchOne(s, ids, taker, qty);
      MatchOneSeen(h, s, ids, taker, qty);
      var n := MatchSide(m.side, m.ids, limit, taker, m.left);
      MatchSeen(SeeAll(h, s.isBid, m.events), m.side, m.ids, limit, taker, m.left);
      SeeAllConcat(h, s.isBid, m.events, n.events);
    }
  }

  lemma {:induction false} SeenByOther(h: Half, s: Side, ids: map<u32, nat>, limit: int, taker: Taker, qty: nat)
    requires SideOk(s) && qty <= taker.total
    ensures SeeAll(h, !s.isBid, MatchSide(s, ids, limit, taker, qty).events) == h
    decreases qty
  {
    hide SideOk, MatchOne;
    if CanMatch(s, limit, qty) {
      var m := MatchOne(s, ids, taker, qty);
      MatchOneUnseen(h, s, ids, taker, qty);
      SeenByOther(h, m.side, m.ids, limit, taker, m.left);
      SeeAllConcat(h, !s.isBid, m.events, MatchSide(m.side, m.ids, limit, taker, m.left).events);
    }
  }

  lemma MatchOneUnseen(h: Half, s: Side, ids: map<u32, nat>, taker: Taker, qty: nat)
    requires SideOk(s) && s.best < NUM_LEVELS && 0 < qty <= taker.total
    ensures SeeAll(h, !s.isBid, MatchOne(s, ids, taker, qty).events) == h
  {
    hide QueuesOk, HomeOk, FreeOk, MatchOne, ScanFrom;
    var m := MatchOne(s, ids, taker, qty);
    if s.queues[s.best][0].remaining <= qty {
      MatchOneWhole(s, ids, taker, qty);
    } else {
      MatchOnePart(s, ids, taker, qty);
    }
    assert m.events == [m.events[0]] || m.events == [m.events[0], m.events[1]];
    SeeTwo(h, !s.isBid, m.events[0], if |m.events| == 2 then m.events[1] else m.events[0]);
  }

  // ----- Every request -----

  /** A replica of the whole book. */
  datatype Replica = Replica(bids: Half, asks: Half)

  function Follow(v: Replica, events: seq<Event>): Replica {
    Replica(SeeAll(v.bids, true, events), SeeAll(v.asks, false, events))
  }

  predicate RightBook(v: Replica, b: Book) {
    Right(v.bids, b.bids) && Right(v.asks, b.asks)
  }

  function HalfOf(v: Replica, isBid: bool): Half {
    if isBid then v.bids else v.asks
  }

  /** Two callbacks of which one announces the changed level. */
  lemma PairSeen(v: Replica, b: Book, isBid: bool, t: Side, r: nat, x: Event, y: Event)
    requires BookOk(b) && RightBook(v, b) && t.isBid == isBid && r < NUM_LEVELS
    requires |t.queues| == NUM_LEVELS && t.queues == SideOf(b, isBid).queues[r := t.queues[r]]
    requires var u := LevelUpdate(isBid, PriceOf(isBid, r), Total(t.queues[r]));
             (x == u && !y.LevelUpdate?) || (y == u && !x.LevelUpdate?)
    ensures Right(SeeAll(HalfOf(v, isBid), isBid, [x, y]), t)
    ensures SeeAll(HalfOf(v, !isBid), !isBid, [x, y]) == HalfOf(v, !isBid)
  {
    hide SideOk, IdsSide, RightBut;
    RightWeaken(HalfOf(v, isBid), SideOf(b, isBid), PriceOf(isBid, r));
    Announced(HalfOf(v, isBid), SideOf(b, isBid), t, r);
    SeeTwo(HalfOf(v, isBid), isBid, x, y);
    SeeTwo(HalfOf(v, !isBid), !isBid, x, y);
  }

  lemma RestSeen(v: Replica, b: Book, o: Order, request: u32)
    requires BookOk(b) && RightBook(v, b) && MINIMUM_BID <= o.price <= MAXIMUM_ASK
    ensures var out := Rest(b, o, request); RightBook(Follow(v, out.events), out.book)
  {
    hide QueuesOk, HomeOk, FreeOk, IdsSide, RightBut, SeeAll;
    var own := SideOf(b, o.isBid);
    var out := Rest(b, o, request);
    if own.free == [] {
      SeeTwo(v.bids, true, out.events[0], out.events[0]);
      SeeTwo(v.asks, false, out.events[0], out.events[0]);
    } else {
      var r := RankOf(o.isBid, o.price);
      PairSeen(v, b, o.isBid, Added(own, r, o.(handle := own.free[0])), r, out.events[0], out.events[1]);
    }
  }

  lemma SubmitSeen(v: Replica, b: Book, c: Command)
    requires BookOk(b) && RightBook(v, b) && c.Submit?
    ensures RightBook(Follow(v, Apply(b, c).events), Apply(b, c).book)
  {
    hide SideOk, IdsSide, RightBut, SeeAll, MatchSide, Rest;
    if Accepted(c) {
      var m := MatchIncoming(b, c.price, c.quantity, c.isBid, c.client);
      var s := SideOf(b, !c.isBid);
      var limit, taker := RankOf(!c.isBid, c.price), Taker(c.client, Wrap(b.accepted), c.quantity);
      MatchSeen(HalfOf(v, !c.isBid), s, b.ids, limit, taker, c.quantity);
      SeenByOther(HalfOf(v, c.isBid), s, b.ids, limit, taker, c.quantity);
      var b1, v1 := AfterMatch(b, c.isBid, m), Follow(v, m.events);
      assert RightBook(v1, b1);
      AfterMatchOk(b, c.price, c.quantity, c.isBid, c.client);
      if 0 < m.left {
        var o := Incoming(b, c.price, c.quantity, m.left, c.isBid, c.client);
        SubmitEvents(b, c);
        RestSeen(v1, b1, o, c.request);
        var more := Apply(b, c).events[|m.events|..];
        SeeAllConcat(v.bids, true, m.events, more);
        SeeAllConcat(v.asks, false, m.events, more);
      }
    } else {
      SeeTwo(v.bids, true, Apply(b, c).events[0], Apply(b, c).events[0]);
      SeeTwo(v.asks, false, Apply(b, c).events[0], Apply(b, c).events[0]);
    }
  }

  /** A submission that is not filled makes the callbacks of its matching, then those of resting. */
  lemma SubmitEvents(b: Book, c: Command)
    requires BookOk(b) && Accepted(c)
    requires 0 < MatchIncoming(b, c.price, c.quantity, c.isBid, c.client).left
    ensures var m := MatchIncoming(b, c.price, c.quantity, c.isBid, c.client);
            var b1, o := AfterMatch(b, c.isBid, m), Incoming(b, c.price, c.quantity, m.left, c.isBid, c.client);
            && BookOk(b1)
            && |m.events| <= |Apply(b, c).events|
            && Apply(b, c).events == m.events + Apply(b, c).events[|m.events|..]
            && Apply(b, c).events[|m.events|..] == Rest(b1, o, c.request).events
            && Apply(b, c).book == Rest(b1, o, c.request).book
  {
    hide QueuesOk, HomeOk, FreeOk, IdsSide, MatchSide, Added;
    AfterMatchOk(b, c.price, c.quantity, c.isBid, c.client);
  }

  lemma CancelSeen(v: Replica, b: Book, c: Command)
    requires BookOk(b) && RightBook(v, b) && c.Cancel?
    ensures RightBook(Follow(v, Apply(b, c).events), Apply(b, c).book)
  {
    hide QueuesOk, HomeOk, FreeOk, IdsSide, Lookup, RightBut, SeeAll, ScanFrom;
    var p := Lookup(b, c.id);
    var events := Apply(b, c).events;
    if p.At? && OrderAt(b, p).clientId == c.client {
      var s := SideOf(b, p.isBid);
      PlaceOk(s, p.r, p.k);
      PairSeen(v, b, p.isBid, CancelledSide(s, p.r, p.k), p.r, events[0], events[1]);
    } else {
      SeeTwo(v.bids, true, events[0], events[0]);
      SeeTwo(v.asks, false, events[0], events[0]);
    }
  }

  lemma AmendSeen(v: Replica, b: Book, c: Command)
    requires BookOk(b) && RightBook(v, b) && c.Amend?
    ensures RightBook(Follow(v, Apply(b, c).events), Apply(b, c).book)
  {
    hide QueuesOk, HomeOk, FreeOk, IdsSide, Lookup, RightBut, SeeAll, ScanFrom;
    var p := Lookup(b, c.id);
    var events := Apply(b, c).events;
    SeeTwo(v.bids, true, events[0], events[0]);
    SeeTwo(v.asks, false, events[0], events[0]);
    if p.At? {
      var s := SideOf(b, p.isBid);
      var o := OrderAt(b, p);
      PlaceOk(s, p.r, p.k);
      if o.clientId == c.client && Amendable(o, c.newQuantity) && c.newQuantity - o.cumulative != o.remaining {
        PairSeen(v, b, p.isBid, ReducedSide(s, p.r, p.k, Resized(o, c.newQuantity)), p.r, events[0], events[1]);
      }
    }
  }

  /** A replica that is right at the prices it knows is right again after the updates of any
      request. */
  lemma ApplySeen(v: Replica, b: Book, c: Command)
    requires BookOk(b) && RightBook(v, b)
    ensures RightBook(Follow(v, Apply(b, c).events), Apply(b, c).book)
  {
    hide BookOk, RightBook, Apply, Follow;
    if c.Submit? {
      SubmitSeen(v, b, c);
    } else if c.Cancel? {
      CancelSeen(v, b, c);
    } else {
      AmendSeen(v, b, c);
    }
  }

  // ----- Snapshots -----

  datatype Quote = Quote(price: int, volume: u32)

  /** The first `depth` levels with a non-zero total from rank r on. */
  function Visible(s: Side, r: nat, depth: nat): (qs: seq<Quote>)
    requires |s.queues| == NUM_LEVELS
    ensures |qs| <= depth
    decreases NUM_LEVELS - r
  {
    if depth == 0 || r >= NUM_LEVELS then []
    else if Total(s.queues[r]) > 0 then [Quote(PriceOf(s.isBid, r), Total(s.queues[r]))] + Visible(s, r + 1, depth - 1)
    else Visible(s, r + 1, depth)
  }

  function Snapshot(s: Side): seq<Quote>
    requires |s.queues| == NUM_LEVELS
  {
    Visible(s, s.best, SNAPSHOT_DEPTH)
  }

  /** A quote shows the true total of a level at rank r or behind. */
  predicate Shows(s: Side, q: Quote, r: int)
    requires |s.queues| == NUM_LEVELS
  {
    && MINIMUM_BID <= q.price <= MAXIMUM_ASK
    && r <= RankOf(s.isBid, q.price)
    && 0 < q.volume == Total(s.queues[RankOf(s.isBid, q.price)])
  }

  predicate AllShow(s: Side, qs: seq<Quote>, r: int)
    requires |s.queues| == NUM_LEVELS
  {
    forall k :: 0 <= k < |qs| ==> Shows(s, qs[k], r)
  }

  lemma {:induction false} VisibleExact(s: Side, r: nat, depth: nat)
    requires |s.queues| == NUM_LEVELS
    ensures AllShow(s, Visible(s, r, depth), r)
    decreases NUM_LEVELS - r
  {
    if depth != 0 && r < NUM_LEVELS {
      VisibleExact(s, r + 1, if Total(s.queues[r]) > 0 then depth - 1 else depth);
    }
  }

  /** Quotes come best price first. */
  predicate Ordered(isBid: bool, qs: seq<Quote>) {
    forall k, l :: 0 <= k < l < |qs| ==> RankOf(isBid, qs[k].price) < RankOf(isBid, qs[l].price)
  }

  lemma {:induction false} VisibleOrdered(s: Side, r: nat, depth: nat)
    requires |s.queues| == NUM_LEVELS
    ensures Ordered(s.isBid, Visible(s, r, depth))
    decreases NUM_LEVELS - r
  {
    hide Total;
    if depth != 0 && r < NUM_LEVELS {
      var d := if Total(s.queues[r]) > 0 then depth - 1 else depth;
      VisibleOrdered(s, r + 1, d);
      VisibleExact(s, r + 1, d);
    }
  }

  /** No non-zero level is skipped: level i is quoted, or better levels used up the depth. */
  lemma {:induction false} VisibleComplete(s: Side, r: nat, depth: nat, i: nat)
    requires |s.queues| == NUM_LEVELS && r <= i < NUM_LEVELS && Total(s.queues[i]) > 0
    ensures var qs := Visible(s, r, depth);
            || Quote(PriceOf(s.isBid, i), Total(s.queues[i])) in qs
            || (|qs| == depth && forall k :: 0 <= k < |qs| ==> RankOf(s.isBid, qs[k].price) < i)
    decreases NUM_LEVELS - r
  {
    hide Total;
    if depth != 0 && r < i {
      VisibleComplete(s, r + 1, if Total(s.queues[r]) > 0 then depth - 1 else depth, i);
    }
  }

  /** A snapshot: at most ten quotes, best first, each the true non-zero total of a level from the
      cached best on, and none of those levels is left out unless ten better ones are quoted. */
  lemma SnapshotExact(s: Side)
    requires SideOk(s)
    ensures |s.queues| == NUM_LEVELS && |Snapshot(s)| <= 10 && Ordered(s.isBid, Snapshot(s))
    ensures forall k :: 0 <= k < |Snapshot(s)| ==>
              var q := Snapshot(s)[k];
              && MINIMUM_BID <= q.price <= MAXIMUM_ASK && s.best <= RankOf(s.isBid, q.price)
              && 0 < q.volume == Total(s.queues[RankOf(s.isBid, q.price)])
    ensures forall i :: s.best <= i < NUM_LEVELS && Total(s.queues[i]) > 0 ==>
              || Quote(PriceOf(s.isBid, i), Total(s.queues[i])) in Snapshot(s)
              || (|Snapshot(s)| == 10 && forall k :: 0 <= k < 10 ==> RankOf(s.isBid, Snapshot(s)[k].price) < i)
  {
    hide SideOk, Visible, Total;
    SideLength(s);
    VisibleExact(s, s.best, SNAPSHOT_DEPTH);
    VisibleOrdered(s, s.best, SNAPSHOT_DEPTH);
    forall k | 0 <= k < |Snapshot(s)| ensures Shows(s, Snapshot(s)[k], s.best) {
    }
    forall i | s.best <= i < NUM_LEVELS && Total(s.queues[i]) > 0
      ensures || Quote(PriceOf(s.isBid, i), Total(s.queues[i])) in Snapshot(s)
              || (|Snapshot(s)| == 10 && forall k :: 0 <= k < 10 ==> RankOf(s.isBid, Snapshot(s)[k].price) < i)
    {
      VisibleComplete(s, s.best, SNAPSHOT_DEPTH, i);
    }
  }

  function Noted(h: Half, q: Quote): Half {
    if q.volume > 0 then Half(h.levels[q.price := q.volume], h.known + {q.price}) else h
  }

  /** A replica side built from quotes alone. */
  function FromQuotes(h: Half, qs: seq<Quote>): Half
    decreases |qs|
  {
    if qs == [] then h else FromQuotes(Noted(h, qs[0]), qs[1..])
  }

  const NOTHING: Half := Half(map[], {})

  lemma {:induction false} FromQuotesRight(h: Half, s: Side, qs: seq<Quote>)
    requires Right(h, s)
    requires AllShow(s, qs, 0)
    ensures Right(FromQuotes(h, qs), s)
    ensures forall p :: p in FromQuotes(h, qs).known <==> p in h.known || Quoted(qs, p)
    decreases |qs|
  {
    if qs != [] {
      var q := qs[0];
      var h' := Half(h.levels[q.price := q.volume], h.known + {q.price});
      assert Shows(s, q, 0);
      QuoteRight(h, s, q);
      FromQuotesRight(h', s, qs[1..]);
      PricesCons(qs);
    }
  }

  predicate Quoted(qs: seq<Quote>, p: int) {
    exists k :: 0 <= k < |qs| && qs[k].price == p
  }

  lemma PricesCons(qs: seq<Quote>)
    requires qs != []
    ensures forall p: int :: Quoted(qs, p) <==> p == qs[0].price || Quoted(qs[1..], p)
  {
  }

  lemma QuoteRight(h: Half, s: Side, q: Quote)
    requires Right(h, s) && Shows(s, q, 0)
    ensures Right(Half(h.levels[q.price := q.volume], h.known + {q.price}), s)
  {
  }

  lemma SnapshotRight(s: Side)
    requires SideOk(s)
    ensures var h := FromQuotes(NOTHING, Snapshot(s));
            && Right(h, s)
            && forall p :: p in h.known <==> Quoted(Snapshot(s), p)
  {
    hide QueuesOk, HomeOk, FreeOk, Visible;
    VisibleExact(s, s.best, SNAPSHOT_DEPTH);
    ShowsWeaken(s, Snapshot(s), s.best);
    FromQuotesRight(NOTHING, s, Snapshot(s));
  }

  lemma ShowsWeaken(s: Side, qs: seq<Quote>, r: nat)
    requires |s.queues| == NUM_LEVELS && AllShow(s, qs, r)
    ensures AllShow(s, qs, 0)
  {
  }

  // ----- Runs -----

  /** The callbacks made and the book left by further requests. */
  function Events(b: Book, cs: seq<Command>): seq<Event>
    requires BookOk(b)
    decreases |cs|
  {
    if cs == [] then []
    else
      ApplyOk(b, cs[0]);
      Apply(b, cs[0]).events + Events(Apply(b, cs[0]).book, cs[1..])
  }

  function After(b: Book, cs: seq<Command>): (b': Book)
    requires BookOk(b)
    ensures BookOk(b')
    decreases |cs|
  {
    if cs == [] then b
    else
      ApplyOk(b, cs[0]);
      After(Apply(b, cs[0]).book, cs[1..])
  }

  lemma {:induction false} AfterIsRun(cs: seq<Command>, ds: seq<Command>)
    ensures After(Run(cs), ds) == Run(cs + ds)
    decreases |ds|
  {
    hide BookOk, Apply;
    if ds == [] {
      assert cs + ds == cs;
    } else {
      var c := ds[0];
      assert (cs + [c])[..|cs|] == cs;
      assert (cs + [c]) + ds[1..] == cs + ds;
      AfterIsRun(cs + [c], ds[1..]);
    }
  }

  lemma {:induction false} FollowRun(v: Replica, b: Book, cs: seq<Command>)
    requires BookOk(b) && RightBook(v, b)
    ensures RightBook(Follow(v, Events(b, cs)), After(b, cs))
    decreases |cs|
  {
    hide BookOk, RightBook, Apply;
    if cs != [] {
      var out := Apply(b, cs[0]);
      ApplyOk(b, cs[0]);
      ApplySeen(v, b, cs[0]);
      var rest := Events(out.book, cs[1..]);
      FollowRun(Follow(v, out.events), out.book, cs[1..]);
      SeeAllConcat(v.bids, true, out.events, rest);
      SeeAllConcat(v.asks, false, out.events, rest);
    }
  }

  /** The prices a list of callbacks announces on one side. */
  function Touched(isBid: bool, events: seq<Event>): set<int> {
    set i | 0 <= i < |events| && events[i].LevelUpdate? && events[i].isBid == isBid :: events[i].price
  }

  lemma {:induction false} KnownGrows(h: Half, isBid: bool, events: seq<Event>)
    ensures SeeAll(h, isBid, events).known == h.known + Touched(isBid, events)
    decreases |events|
  {
    if events != [] {
      KnownGrows(See(h, isBid, events[0]), isBid, events[1..]);
      var tail := Touched(isBid, events[1..]);
      forall i | 1 <= i < |events| && events[i].LevelUpdate?
          && events[i].isBid == isBid ensures events[i].price in tail {
        assert events[1..][i - 1] == events[i];
      }
      assert Touched(isBid, events) ==
          (if events[0].LevelUpdate? && events[0].isBid == isBid then {events[0].price} else {}) + tail;
    }
  }

  predicate ValidPrice(p: int) {
    MINIMUM_BID <= p <= MAXIMUM_ASK
  }

  /** What is known of the empty book: no volume at any price. */
  function EmptyFeed(): Half {
    Half(map[], set p: int | MINIMUM_BID <= p <= MAXIMUM_ASK && ValidPrice(p))
  }

  lemma EmptyFeedRight(isBid: bool)
    ensures Right(EmptyFeed(), EmptySide(isBid))
  {
  }

  /** The engine's map of non-zero levels. */
  function LevelMap(s: Side): map<int, u32>
    requires |s.queues| == NUM_LEVELS
  {
    map p: int | MINIMUM_BID <= p <= MAXIMUM_ASK && Total(s.queues[RankOf(s.isBid, p)]) != 0
      :: Total(s.queues[RankOf(s.isBid, p)])
  }

  function Restricted(levels: map<int, u32>, prices: set<int>): map<int, u32> {
    map p | p in levels && p in prices :: levels[p]
  }

  /** A replica that is right at the prices it knows holds exactly the engine's levels there. */
  lemma RightLevels(h: Half, s: Side)
    requires Right(h, s)
    ensures h.levels == Restricted(LevelMap(s), h.known)
  {
    hide Total;
    var want := Restricted(LevelMap(s), h.known);
    forall p | p in h.levels ensures p in want && want[p] == h.levels[p] {
      assert RightAt(h, s, p);
    }
    forall p | p in want ensures p in h.levels {
      assert RightAt(h, s, p);
    }
  }

  /** A replica that started empty with the empty book and saw every update equals, after every
      run, the engine's map of non-zero levels. */
  lemma FeedFromEmpty(cs: seq<Command>, isBid: bool)
    ensures |SideOf(Run(cs), isBid).queues| == NUM_LEVELS
    ensures EmptyFeed().levels == map[]
    ensures SeeAll(EmptyFeed(), isBid, Events(Run([]), cs)).levels == LevelMap(SideOf(Run(cs), isBid))
  {
    hide BookOk, SeeAll, Events, After, RightBut, EmptySide, LevelMap;
    EmptyFeedRight(true);
    EmptyFeedRight(false);
    var v := Replica(EmptyFeed(), EmptyFeed());
    assert RightBook(v, Run([]));
    FollowRun(v, Run([]), cs);
    AfterIsRun([], cs);
    assert [] + cs == cs;
    var s, h := SideOf(Run(cs), isBid), SeeAll(EmptyFeed(), isBid, Events(Run([]), cs));
    BookSides(Run(cs));
    KnownGrows(EmptyFeed(), isBid, Events(Run([]), cs));
    RightLevels(h, s);
    EverythingKnown(LevelMap(s), h.known, s);
  }

  lemma EverythingKnown(levels: map<int, u32>, known: set<int>, s: Side)
    requires |s.queues| == NUM_LEVELS && levels == LevelMap(s) && EmptyFeed().known <= known
    ensures Restricted(levels, known) == levels
  {
    hide Total;
    forall p | p in levels ensures p in known {
      assert ValidPrice(p) && p in EmptyFeed().known;
    }
  }

  /** The prices quoted in a snapshot. */
  function QuotedPrices(qs: seq<Quote>): set<int> {
    set k | 0 <= k < |qs| :: qs[k].price
  }

  /** A replica started from a snapshot taken after cs, and fed the updates of ds, holds exactly the
      engine's levels at the prices that were quoted or updated, and no other. */
  lemma FeedFromSnapshot(cs: seq<Command>, ds: seq<Command>, isBid: bool)
    ensures |SideOf(Run(cs), isBid).queues| == |SideOf(Run(cs + ds), isBid).queues| == NUM_LEVELS
    ensures var start := Snapshot(SideOf(Run(cs), isBid));
            var events := Events(Run(cs), ds);
            SeeAll(FromQuotes(NOTHING, start), isBid, events).levels ==
            Restricted(LevelMap(SideOf(Run(cs + ds), isBid)), QuotedPrices(start) + Touched(isBid, events))
  {
    hide BookOk, SideOk, SeeAll, Events, After, Run, RightBut, Visible, FromQuotes, Touched, LevelMap;
    var b := Run(cs);
    BookSides(b);
    BookSides(Run(cs + ds));
    SnapshotRight(b.bids);
    SnapshotRight(b.asks);
    var v := Replica(FromQuotes(NOTHING, Snapshot(b.bids)), FromQuotes(NOTHING, Snapshot(b.asks)));
    FollowRun(v, b, ds);
    AfterIsRun(cs, ds);
    KnownGrows(HalfOf(v, isBid), isBid, Events(b, ds));
    RightLevels(SeeAll(HalfOf(v, isBid), isBid, Events(b, ds)), SideOf(Run(cs + ds), isBid));
    KnownAreQuoted(Snapshot(SideOf(b, isBid)), HalfOf(v, isBid).known);
  }

  lemma KnownAreQuoted(qs: seq<Quote>, known: set<int>)
    requires forall p :: p in known <==> Quoted(qs, p)
    ensures known == QuotedPrices(qs)
  {
    forall p | p in QuotedPrices(qs) ensures p in known {
      assert Quoted(qs, p);
    }
    forall p | p in known ensures p in QuotedPrices(qs) {
      var k :| 0 <= k < |qs| && qs[k].price == p;
      assert qs[k].price in QuotedPrices(qs);
    }
  }
}
