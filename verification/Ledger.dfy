/** Conservation of volume over whole runs. */
module Ledger {
  import opened Types
  import opened Matching
  import opened BookModel
  import opened BestPrice

  /** Volume resting at ranks a and beyond. */
  function VolumeFrom(qs: seq<seq<Order>>, a: nat): nat
    decreases |qs| - a
  {
    if a >= |qs| then 0 else SumRemaining(qs[a]) + VolumeFrom(qs, a + 1)
  }

  function Volume(b: Book): nat {
    VolumeFrom(b.bids.queues, 0) + VolumeFrom(b.asks.queues, 0)
  }

  lemma {:induction false} VolumeUpdate(qs: seq<seq<Order>>, a: nat, r: nat, q: seq<Order>)
    requires r < |qs|
    ensures VolumeFrom(qs[r := q], a) ==
            VolumeFrom(qs, a) + if a <= r then SumRemaining(q) - SumRemaining(qs[r]) else 0
    decreases |qs| - a
  {
    if a < |qs| {
      VolumeUpdate(qs, a + 1, r, q);
    }
  }

  lemma {:induction false} VolumeEmpty(qs: seq<seq<Order>>, a: nat)
    requires forall r :: 0 <= r < |qs| ==> qs[r] == []
    ensures VolumeFrom(qs, a) == 0
    decreases |qs| - a
  {
    if a < |qs| {
      VolumeEmpty(qs, a + 1);
    }
  }

  /** What a list of callbacks says was traded, cancelled and amended away. */
  function TradedVolume(events: seq<Event>): int {
    if events == [] then 0
    else (if events[0].Trade? then events[0].quantity else 0) + TradedVolume(events[1..])
  }

  function WithdrawnVolume(events: seq<Event>): int {
    if events == [] then 0
    else
      (match events[0]
       case Cancelled(_, o) => o.remaining
       case Amended(_, was, o) => was - o.quantity
       case _ => 0) + WithdrawnVolume(events[1..])
  }

  lemma {:induction false} EventsConcat(a: seq<Event>, b: seq<Event>)
    ensures TradedVolume(a + b) == TradedVolume(a) + TradedVolume(b)
    ensures WithdrawnVolume(a + b) == WithdrawnVolume(a) + WithdrawnVolume(b)
  {
    if a == [] {
      assert a + b == b;
    } else {
      assert (a + b)[1..] == a[1..] + b;
      EventsConcat(a[1..], b);
    }
  }

  lemma PairVolumes(x: Event, y: Event)
    ensures TradedVolume([x]) == if x.Trade? then x.quantity else 0
    ensures TradedVolume([x, y]) == TradedVolume([x]) + TradedVolume([y])
    ensures WithdrawnVolume([x, y]) == WithdrawnVolume([x]) + WithdrawnVolume([y])
    ensures WithdrawnVolume([x]) == match x
                                    case Cancelled(_, o) => o.remaining
                                    case Amended(_, was, o) => was - o.quantity
                                    case _ => 0
  {
  }

  // ----- Matching -----

  lemma MatchOneVolume(s: Side, ids: map<u32, nat>, taker: Taker, qty: nat)
    requires SideOk(s) && s.best < NUM_LEVELS && 0 < qty <= taker.total
    ensures var m := MatchOne(s, ids, taker, qty);
            && VolumeFrom(m.side.queues, 0) + TradedVolume(m.events) == VolumeFrom(s.queues, 0)
            && TradedVolume(m.events) == qty - m.left
            && WithdrawnVolume(m.events) == 0
  {
    hide QueuesOk, HomeOk, FreeOk, MatchOne, ScanFrom, VolumeFrom, TradedVolume, WithdrawnVolume, SumRemaining;
    var r := s.best;
    var q := s.queues[r];
    var m := MatchOne(s, ids, taker, qty);
    if q[0].remaining <= qty {
      MatchOneWhole(s, ids, taker, qty);
      SumRemainingRemove(q, 0);
      VolumeUpdate(s.queues, 0, r, Without(q, 0));
    } else {
      MatchOnePart(s, ids, taker, qty);
      SumRemainingUpdate(q, 0, Traded(q[0], qty));
      VolumeUpdate(s.queues, 0, r, q[0 := Traded(q[0], qty)]);
    }
    assert m.events == [m.events[0]] || m.events == [m.events[0], m.events[1]];
    PairVolumes(m.events[0], if |m.events| == 2 then m.events[1] else m.events[0]);
    PairVolumes(if |m.events| == 2 then m.events[1] else m.events[0], m.events[0]);
  }

  lemma {:induction false} MatchVolume(s: Side, ids: map<u32, nat>, limit: int, taker: Taker, qty: nat)
    requires SideOk(s) && qty <= taker.total
    ensures var m := MatchSide(s, ids, limit, taker, qty);
            && VolumeFrom(m.side.queues, 0) + TradedVolume(m.events) == VolumeFrom(s.queues, 0)
            && TradedVolume(m.events) == qty - m.left
            && WithdrawnVolume(m.events) == 0
    decreases qty
  {
    hide SideOk, MatchOne;
    if CanMatch(s, limit, qty) {
      var m := MatchOne(s, ids, taker, qty);
      MatchOneVolume(s, ids, taker, qty);
      MatchVolume(m.side, m.ids, limit, taker, m.left);
      EventsConcat(m.events, MatchSide(m.side, m.ids, limit, taker, m.left).events);
    }
  }

  // ----- Requests -----

  /** The volume a request brings into the exchange. */
  function AcceptedVolume(c: Command): nat {
    if Accepted(c) then c.quantity else 0
  }

  predicate Balanced(b: Book, incoming: nat, out: Outcome) {
    Volume(b) + incoming == Volume(out.book) + 2 * TradedVolume(out.events) + WithdrawnVolume(out.events) + out.dropped
  }

  lemma RestVolume(b: Book, o: Order, request: u32)
    requires BookOk(b) && MINIMUM_BID <= o.price <= MAXIMUM_ASK
    ensures var out := Rest(b, o, request);
            && Volume(out.book) + out.dropped == Volume(b) + o.remaining
            && TradedVolume(out.events) == WithdrawnVolume(out.events) == 0
  {
    hide QueuesOk, HomeOk, FreeOk, IdsSide, VolumeFrom, TradedVolume, WithdrawnVolume;
    var own := SideOf(b, o.isBid);
    var out := Rest(b, o, request);
    if own.free == [] {
      PairVolumes(out.events[0], out.events[0]);
    } else {
      var r := RankOf(o.isBid, o.price);
      var o' := o.(handle := own.free[0]);
      SumRemainingConcat(own.queues[r], [o']);
      assert SumRemaining([o']) == o'.remaining + SumRemaining([]);
      VolumeUpdate(own.queues, 0, r, own.queues[r] + [o']);
      PairVolumes(out.events[0], out.events[1]);
      PairVolumes(out.events[1], out.events[0]);
    }
  }

  lemma SubmitVolume(b: Book, c: Command)
    requires BookOk(b) && c.Submit?
    ensures Balanced(b, AcceptedVolume(c), Apply(b, c))
    ensures 0 <= WithdrawnVolume(Apply(b, c).events)
  {
    hide QueuesOk, HomeOk, FreeOk, IdsSide, VolumeFrom, TradedVolume, WithdrawnVolume, MatchSide, Rest;
    if Accepted(c) {
      var m := MatchIncoming(b, c.price, c.quantity, c.isBid, c.client);
      MatchVolume(SideOf(b, !c.isBid), b.ids, RankOf(!c.isBid, c.price),
                  Taker(c.client, Wrap(b.accepted), c.quantity), c.quantity);
      AfterMatchOk(b, c.price, c.quantity, c.isBid, c.client);
      if 0 < m.left {
        var b1, o := AfterMatch(b, c.isBid, m), Incoming(b, c.price, c.quantity, m.left, c.isBid, c.client);
        RestVolume(b1, o, c.request);
        EventsConcat(m.events, Rest(b1, o, c.request).events);
      }
    } else {
      PairVolumes(Apply(b, c).events[0], Apply(b, c).events[0]);
    }
  }

  lemma CancelVolume(b: Book, c: Command)
    requires BookOk(b) && c.Cancel?
    ensures Balanced(b, 0, Apply(b, c))
    ensures 0 <= WithdrawnVolume(Apply(b, c).events)
  {
    hide QueuesOk, HomeOk, FreeOk, IdsSide, Lookup, VolumeFrom, TradedVolume, WithdrawnVolume, ScanFrom;
    var p := Lookup(b, c.id);
    var out := Apply(b, c);
    PairVolumes(out.events[0], out.events[|out.events| - 1]);
    PairVolumes(out.events[|out.events| - 1], out.events[0]);
    if p.At? && OrderAt(b, p).clientId == c.client {
      var s := SideOf(b, p.isBid);
      SumRemainingRemove(s.queues[p.r], p.k);
      VolumeUpdate(s.queues, 0, p.r, Without(s.queues[p.r], p.k));
    }
  }

  lemma ReducedVolume(s: Side, r: nat, k: nat, o: Order)
    requires SideOk(s) && r < NUM_LEVELS && k < |s.queues[r]|
    ensures VolumeFrom(ReducedSide(s, r, k, o).queues, 0) + s.queues[r][k].remaining == VolumeFrom(s.queues, 0)
            + o.remaining
    ensures ReducedSide(s, r, k, o).isBid == s.isBid
  {
    hide QueuesOk, HomeOk, FreeOk, VolumeFrom, ScanFrom;
    if o.remaining == 0 {
      SumRemainingRemove(s.queues[r], k);
      VolumeUpdate(s.queues, 0, r, Without(s.queues[r], k));
    } else {
      SumRemainingUpdate(s.queues[r], k, o);
      VolumeUpdate(s.queues, 0, r, s.queues[r][k := o]);
    }
  }

  lemma AmendVolume(b: Book, c: Command)
    requires BookOk(b) && c.Amend?
    ensures Balanced(b, 0, Apply(b, c))
    ensures 0 <= WithdrawnVolume(Apply(b, c).events)
  {
    hide QueuesOk, HomeOk, FreeOk, IdsSide, Lookup, VolumeFrom, TradedVolume, WithdrawnVolume, ReducedSide;
    var p := Lookup(b, c.id);
    var out := Apply(b, c);
    PairVolumes(out.events[0], out.events[|out.events| - 1]);
    PairVolumes(out.events[|out.events| - 1], out.events[0]);
    if p.At? {
      var s := SideOf(b, p.isBid);
      var o := OrderAt(b, p);
      PlaceOk(s, p.r, p.k);
      if o.clientId == c.client && Amendable(o, c.newQuantity) {
        ReducedVolume(s, p.r, p.k, Resized(o, c.newQuantity));
      }
    }
  }

  /** Every request balances: what rests, twice what traded, what was cancelled or amended away and
      what was dropped account for what rested before and what came in. */
  lemma ApplyVolume(b: Book, c: Command)
    requires BookOk(b)
    ensures Balanced(b, AcceptedVolume(c), Apply(b, c))
    ensures 0 <= WithdrawnVolume(Apply(b, c).events)
  {
    hide BookOk, Balanced, Apply;
    if c.Submit? {
      SubmitVolume(b, c);
    } else if c.Cancel? {
      CancelVolume(b, c);
    } else {
      AmendVolume(b, c);
    }
  }

  // ----- Runs -----

  datatype Accounts = Accounts(accepted: int, traded: int, withdrawn: int, dropped: int)

  /** Totals over a run. */
  function Tally(cs: seq<Command>): Accounts {
    if cs == [] then Accounts(0, 0, 0, 0)
    else
      var n := |cs| - 1;
      var t := Tally(cs[..n]);
      var out := Apply(Run(cs[..n]), cs[n]);
      Accounts(t.accepted + AcceptedVolume(cs[n]), t.traded + TradedVolume(out.events),
               t.withdrawn + WithdrawnVolume(out.events), t.dropped + out.dropped)
  }

  /** Over every run, accepted volume = 2 * traded + resting + cancelled or amended away + dropped. */
  lemma {:induction false} RunVolume(cs: seq<Command>)
    ensures var t := Tally(cs);
            t.accepted == 2 * t.traded + Volume(Run(cs)) + t.withdrawn + t.dropped
  {
    hide BookOk, Apply;
    if cs == [] {
      VolumeEmpty(EmptyBook().bids.queues, 0);
      VolumeEmpty(EmptyBook().asks.queues, 0);
    } else {
      var prefix, c := cs[..|cs| - 1], cs[|cs| - 1];
      RunVolume(prefix);
      ApplyVolume(Run(prefix), c);
    }
  }

  // ----- Totals that cannot wrap -----

  lemma {:induction false} TradedNonNegative(events: seq<Event>)
    ensures 0 <= TradedVolume(events)
  {
    if events != [] {
      TradedNonNegative(events[1..]);
    }
  }

  lemma {:induction false} LevelWithin(qs: seq<seq<Order>>, a: nat, r: nat)
    requires a <= r < |qs|
    ensures SumRemaining(qs[r]) <= VolumeFrom(qs, a)
    decreases r - a
  {
    if a < r {
      LevelWithin(qs, a + 1, r);
    }
  }

  lemma RunWithin(cs: seq<Command>)
    ensures Volume(Run(cs)) <= Tally(cs).accepted
  {
    hide BookOk, Apply, Volume;
    RunVolume(cs);
    RunNonNegative(cs);
  }

  lemma {:induction false} RunNonNegative(cs: seq<Command>)
    ensures var t := Tally(cs); 0 <= t.accepted && 0 <= t.traded && 0 <= t.withdrawn && 0 <= t.dropped
  {
    hide BookOk, Apply, TradedVolume, WithdrawnVolume;
    if cs != [] {
      var prefix, c := cs[..|cs| - 1], cs[|cs| - 1];
      RunNonNegative(prefix);
      ApplyVolume(Run(prefix), c);
      TradedNonNegative(Apply(Run(prefix), c).events);
    }
  }

  /** On every run that accepts less than 2^32 units in all, no level total wraps. */
  lemma SmallRunsNoWrap(cs: seq<Command>)
    requires Tally(cs).accepted < U32
    ensures NoWraps(Run(cs))
  {
    hide BookOk, Run, Tally, VolumeFrom;
    RunWithin(cs);
    var b := Run(cs);
    forall r | 0 <= r < |b.bids.queues| ensures SumRemaining(b.bids.queues[r]) < U32 {
      LevelWithin(b.bids.queues, 0, r);
    }
    forall r | 0 <= r < |b.asks.queues| ensures SumRemaining(b.asks.queues[r]) < U32 {
      LevelWithin(b.asks.queues, 0, r);
    }
  }
}
