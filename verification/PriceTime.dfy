/** The matching loop against its reference: resting orders sorted by price and then arrival,
    filled greedily up to the incoming order's limit. */
module PriceTime {
  import opened Types
  import opened Matching
  import opened BookModel

  /** The orders at ranks a..limit, best price first and first come first. */
  function Exposed(qs: seq<seq<Order>>, a: nat, limit: int): seq<Order>
    decreases |qs| - a
  {
    if a >= |qs| || a > limit then [] else qs[a] + Exposed(qs, a + 1, limit)
  }

  /** No level's volume reaches 2^32, so 32-bit totals are the true totals. */
  predicate NoWrap(qs: seq<seq<Order>>) {
    forall r :: 0 <= r < |qs| ==> SumRemaining(qs[r]) < U32
  }

  /** No level better than rank b has orders. */
  predicate EmptyBefore(qs: seq<seq<Order>>, b: int) {
    forall r :: 0 <= r < b && r < |qs| ==> qs[r] == []
  }

  /** The cached best price is the true one; with BestOk, the best non-empty level. */
  predicate TrueBest(s: Side) {
    EmptyBefore(s.queues, s.best)
  }

  /** Orders that matching does not reach: at a level better than the cached best, or behind it
      with a 32-bit total of 0. */
  predicate Hidden(s: Side, r: int) {
    && 0 <= r < |s.queues|
    && s.queues[r] != []
    && (r < s.best || (s.best < r && Total(s.queues[r]) == 0))
  }

  /** The queues as matching sees them: hidden levels look empty. */
  function Offered(s: Side): (qs: seq<seq<Order>>)
    ensures |qs| == |s.queues|
    ensures forall r :: 0 <= r < |qs| ==> qs[r] == if Hidden(s, r) then [] else s.queues[r]
  {
    seq(|s.queues|, r requires 0 <= r < |s.queues| => if Hidden(s, r) then [] else s.queues[r])
  }

  lemma {:induction false} OfferedSound(s: Side, a: nat, limit: int)
    requires Slots(s)
    ensures AllSound(Exposed(Offered(s), a, limit))
    decreases NUM_LEVELS - a
  {
    if a < NUM_LEVELS && a <= limit {
      OfferedSound(s, a + 1, limit);
      forall k | 0 <= k < |s.queues[a]| ensures Sound(s.queues[a][k]) {
        PlaceOk(s, a, k);
      }
    }
  }

  lemma {:induction false} ExposedSound(s: Side, a: nat, limit: int)
    requires Slots(s)
    ensures AllSound(Exposed(s.queues, a, limit))
    decreases NUM_LEVELS - a
  {
    if a < NUM_LEVELS && a <= limit {
      ExposedSound(s, a + 1, limit);
      forall k | 0 <= k < |s.queues[a]| ensures Sound(s.queues[a][k]) {
        PlaceOk(s, a, k);
      }
    }
  }

  lemma {:induction false} ExposedFrame(p: seq<seq<Order>>, q: seq<seq<Order>>, a: nat, limit: int)
    requires |p| == |q|
    requires forall r :: a <= r < |p| && r <= limit ==> p[r] == q[r]
    ensures Exposed(p, a, limit) == Exposed(q, a, limit)
    decreases |p| - a
  {
    if a < |p| && a <= limit {
      ExposedFrame(p, q, a + 1, limit);
    }
  }

  lemma {:induction false} ExposedSkip(qs: seq<seq<Order>>, a: nat, b: nat, limit: int)
    requires a <= b
    requires forall r :: a <= r < b && r < |qs| ==> qs[r] == []
    ensures Exposed(qs, a, limit) == Exposed(qs, b, limit)
    decreases b - a
  {
    if a < b {
      ExposedSkip(qs, a + 1, b, limit);
      if a < |qs| && a <= limit {
        assert qs[a] == [];
        assert [] + Exposed(qs, a + 1, limit) == Exposed(qs, a + 1, limit);
      }
    }
  }

  lemma {:induction false} ExposedSplit(qs: seq<seq<Order>>, a: nat, mid: int, limit: int)
    requires a <= mid + 1 && mid <= limit < |qs|
    ensures Exposed(qs, a, limit) == Exposed(qs, a, mid) + Exposed(qs, mid + 1, limit)
    decreases |qs| - a
  {
    if a <= mid {
      ExposedSplit(qs, a + 1, mid, limit);
    }
  }

  /** Without wrap-around a total of 0 means an empty level. */
  lemma LevelTotalZero(s: Side, r: nat)
    requires Slots(s) && NoWrap(s.queues) && r < NUM_LEVELS
    ensures Total(s.queues[r]) == 0 <==> s.queues[r] == []
  {
    if s.queues[r] != [] {
      PlaceOk(s, r, 0);
    }
  }

  // ----- One trade -----

  /** One trade takes the head of the best level, moves the best price at most towards worse
      prices, and hides or uncovers nothing. */
  lemma MatchOneStep(s: Side, ids: map<u32, nat>, taker: Taker, qty: nat)
    requires SideOk(s) && s.best < NUM_LEVELS && 0 < qty <= taker.total
    ensures var m := MatchOne(s, ids, taker, qty);
            var q := s.queues[s.best];
            && Sound(q[0])
            && m.fills == [Fill(q[0], Min(q[0].remaining, qty))]
            && m.left == qty - m.fills[0].quantity
            && m.side.queues == s.queues[s.best := AfterTrade(q, qty)]
            && s.best <= m.side.best
            && Offered(m.side) == Offered(s)[s.best := AfterTrade(q, qty)]
            && (forall r :: Hidden(m.side, r) <==> Hidden(s, r))
  {
    hide QueuesOk, HomeOk, FreeOk, MatchOne, Hidden;
    MatchOneQueues(s, ids, taker, qty);
    OfferedStep(s, MatchOne(s, ids, taker, qty).side, AfterTrade(s.queues[s.best], qty));
  }

  lemma MatchOneQueues(s: Side, ids: map<u32, nat>, taker: Taker, qty: nat)
    requires SideOk(s) && s.best < NUM_LEVELS && 0 < qty <= taker.total
    ensures var m := MatchOne(s, ids, taker, qty);
            var q := s.queues[s.best];
            && Sound(q[0])
            && m.fills == [Fill(q[0], Min(q[0].remaining, qty))]
            && m.left == qty - m.fills[0].quantity
            && Moved(s, m.side, AfterTrade(q, qty))
  {
    hide QueuesOk, HomeOk, FreeOk, MatchOne;
    PlaceOk(s, s.best, 0);
    var q := s.queues[s.best];
    if qty < q[0].remaining {
      MatchOnePart(s, ids, taker, qty);
      assert q[0 := Traded(q[0], qty)] == [Traded(q[0], qty)] + q[1..];
    } else {
      MatchOneWhole(s, ids, taker, qty);
      assert Without(q, 0) == q[1..];
    }
  }

  /** The best queue became q, and the best price was re-scanned only if q is empty. */
  predicate Moved(s: Side, t: Side, q: seq<Order>) {
    && |s.queues| == NUM_LEVELS
    && s.best < NUM_LEVELS
    && t.queues == s.queues[s.best := q]
    && (t.best == s.best || (q == [] && t.best == ScanFrom(t.queues, s.best + 1)))
  }

  lemma OfferedStep(s: Side, t: Side, q: seq<Order>)
    requires Moved(s, t, q)
    ensures s.best <= t.best
    ensures Offered(t) == Offered(s)[s.best := q]
    ensures forall r :: Hidden(t, r) <==> Hidden(s, r)
  {
    forall r: int ensures Hidden(t, r) <==> Hidden(s, r) {
      StillHidden(s, t, q, r);
    }
  }

  /** The best queue once qty was traded with its head. */
  function AfterTrade(q: seq<Order>, qty: nat): seq<Order>
    requires q != [] && Sound(q[0])
  {
    if q[0].remaining <= qty then q[1..] else [Traded(q[0], qty)] + q[1..]
  }

  lemma NotHidden(s: Side)
    ensures !Hidden(s, s.best)
  {
  }

  lemma StillHidden(s: Side, t: Side, q: seq<Order>, i: int)
    requires Moved(s, t, q)
    ensures Hidden(t, i) <==> Hidden(s, i)
  {
  }

  lemma ExposedHead(qs: seq<seq<Order>>, a: nat, limit: int, o: Order, rest: seq<Order>)
    requires a < |qs| && a <= limit
    ensures Exposed(qs[a := [o] + rest], a, limit) == [o] + (rest + Exposed(qs, a + 1, limit))
    ensures Exposed(qs[a := rest], a, limit) == rest + Exposed(qs, a + 1, limit)
  {
    ExposedFrame(qs[a := [o] + rest], qs, a + 1, limit);
    ExposedFrame(qs[a := rest], qs, a + 1, limit);
  }

  /** The state of matching, read off the priority list from rank a. */
  ghost predicate Greedy(before: seq<seq<Order>>, after: seq<seq<Order>>, a: nat, limit: int,
                         qty: nat, fills: seq<Fill>, left: nat)
    requires AllSound(Exposed(before, a, limit))
  {
    var f := FillQueue(Exposed(before, a, limit), qty);
    && fills == f.fills
    && left == f.left
    && Exposed(after, a, limit) == f.rest
  }

  /** A trade at the head of the list followed by greedy filling of what follows is greedy filling. */
  lemma GreedyStep(qs: seq<seq<Order>>, mid: seq<seq<Order>>, after: seq<seq<Order>>, a: nat, limit: int,
                   qty: nat, fills: seq<Fill>, left: nat)
    requires |qs| == |mid| == |after| && a < |qs| && a <= limit && 0 < qty
    requires AllSound(Exposed(qs, a, limit)) && AllSound(Exposed(mid, a, limit))
    requires qs[a] != [] && Sound(qs[a][0])
    requires mid == qs[a := AfterTrade(qs[a], qty)]
    requires Greedy(mid, after, a, limit, qty - Min(qs[a][0].remaining, qty), fills, left)
    ensures Greedy(qs, after, a, limit, qty, [Fill(qs[a][0], Min(qs[a][0].remaining, qty))] + fills, left)
  {
    var q := qs[a];
    var o, rest := q[0], q[1..];
    assert q == [o] + rest;
    assert qs == qs[a := [o] + rest];
    ExposedHead(qs, a, limit, o, rest);
    var tail := rest + Exposed(qs, a + 1, limit);
    assert AllSound(tail) by {
      assert Exposed(qs, a, limit)[1..] == tail;
    }
    FillCons(o, tail, qty);
    if qty < o.remaining {
      ExposedHead(qs, a, limit, Traded(o, qty), rest);
      assert [Fill(o, qty)] + [] == [Fill(o, qty)];
    }
  }

  lemma GreedyNothing(qs: seq<seq<Order>>, a: nat, limit: int, qty: nat)
    requires AllSound(Exposed(qs, a, limit)) && (qty == 0 || |qs| <= a || limit < a)
    ensures Greedy(qs, qs, a, limit, qty, [], qty)
  {
  }

  lemma GreedyShift(before: seq<seq<Order>>, after: seq<seq<Order>>, a: nat, b: nat, limit: int,
                    qty: nat, fills: seq<Fill>, left: nat)
    requires a <= b && AllSound(Exposed(before, b, limit))
    requires forall r :: a <= r < b && r < |before| ==> before[r] == []
    requires forall r :: a <= r < b && r < |after| ==> after[r] == []
    ensures AllSound(Exposed(before, a, limit))
    ensures Greedy(before, after, a, limit, qty, fills, left) <==> Greedy(before, after, b, limit, qty, fills, left)
  {
    ExposedSkip(before, a, b, limit);
    ExposedSkip(after, a, b, limit);
  }

  /** What matching up to a limit leaves alone: levels beyond the limit, hidden levels, and which
      levels are hidden. */
  ghost predicate Framed(s: Side, t: Side, limit: int) {
    && |t.queues| == |s.queues|
    && s.best <= t.best
    && (forall r :: 0 <= r < |s.queues| && (limit < r || Hidden(s, r)) ==> t.queues[r] == s.queues[r])
    && (forall r :: 0 <= r < |s.queues| && s.queues[r] == [] ==> t.queues[r] == [])
    && (forall r :: Hidden(t, r) <==> Hidden(s, r))
  }

  lemma FramedOnce(s: Side, ids: map<u32, nat>, limit: int, taker: Taker, qty: nat)
    requires SideOk(s) && qty <= taker.total && CanMatch(s, limit, qty)
    ensures Framed(s, MatchOne(s, ids, taker, qty).side, limit)
  {
    hide QueuesOk, HomeOk, FreeOk, MatchOne, Hidden;
    MatchOneStep(s, ids, taker, qty);
    NotHidden(s);
  }

  lemma FramedTwice(s: Side, t: Side, u: Side, limit: int)
    requires Framed(s, t, limit) && Framed(t, u, limit)
    ensures Framed(s, u, limit)
  {
    hide Hidden;
    forall r | 0 <= r < |s.queues| && (limit < r || Hidden(s, r)) ensures u.queues[r] == s.queues[r] {
      assert Hidden(t, r) <==> Hidden(s, r);
    }
  }

  lemma {:induction false} MatchSideFrame(s: Side, ids: map<u32, nat>, limit: int, taker: Taker, qty: nat)
    requires SideOk(s) && qty <= taker.total
    ensures var m := MatchSide(s, ids, limit, taker, qty);
            && Framed(s, m.side, limit)
            && (m.left == 0 || m.side.best == NUM_LEVELS || limit < m.side.best)
    decreases qty
  {
    hide QueuesOk, HomeOk, FreeOk, MatchOne, Framed;
    if CanMatch(s, limit, qty) {
      var m := MatchOne(s, ids, taker, qty);
      FramedOnce(s, ids, limit, taker, qty);
      MatchSideFrame(m.side, m.ids, limit, taker, m.left);
      FramedTwice(s, m.side, MatchSide(m.side, m.ids, limit, taker, m.left).side, limit);
    } else {
      FramedNot(s, limit);
    }
  }

  lemma FramedNot(s: Side, limit: int)
    ensures Framed(s, s, limit)
  {
  }

  lemma FramedBest(s: Side, t: Side, limit: int)
    requires Framed(s, t, limit)
    ensures s.best <= t.best && |t.queues| == |s.queues|
  {
  }

  /** The nested loops over levels and queues are greedy filling of one list: the orders that are
      not hidden, best price first and first come first. */
  lemma {:induction false} MatchIsGreedy(s: Side, ids: map<u32, nat>, limit: int, taker: Taker, qty: nat)
    requires SideOk(s) && qty <= taker.total
    ensures AllSound(Exposed(Offered(s), 0, limit))
    ensures var m := MatchSide(s, ids, limit, taker, qty);
            Greedy(Offered(s), Offered(m.side), 0, limit, qty, m.fills, m.left)
    decreases qty
  {
    hide QueuesOk, HomeOk, FreeOk, MatchOne, Greedy, Exposed, Hidden, Framed, EmptyBefore;
    OfferedSound(s, 0, limit);
    OfferedSound(s, s.best, limit);
    if CanMatch(s, limit, qty) {
      var m := MatchOne(s, ids, taker, qty);
      var n := MatchSide(m.side, m.ids, limit, taker, m.left);
      MatchOneStep(s, ids, taker, qty);
      MatchIsGreedy(m.side, m.ids, limit, taker, m.left);
      MatchSideFrame(m.side, m.ids, limit, taker, m.left);
      FramedBest(m.side, n.side, limit);
      NotHidden(s);
      GreedyFrom(m.side, n.side, s.best, limit, m.left, n.fills, n.left);
      GreedyStep(Offered(s), Offered(m.side), Offered(n.side), s.best, limit, qty, n.fills, n.left);
      GreedyFrom(s, n.side, s.best, limit, qty, m.fills + n.fills, n.left);
    } else {
      GreedyNothing(Offered(s), s.best, limit, qty);
      GreedyFrom(s, s, s.best, limit, qty, [], qty);
    }
  }

  /** The list may be read from any rank up to the cached best. */
  lemma GreedyFrom(s: Side, t: Side, b: nat, limit: int, qty: nat, fills: seq<Fill>, left: nat)
    requires Slots(s) && b <= s.best <= t.best
    ensures AllSound(Exposed(Offered(s), 0, limit)) && AllSound(Exposed(Offered(s), b, limit))
    ensures Greedy(Offered(s), Offered(t), 0, limit, qty, fills, left) <==>
              Greedy(Offered(s), Offered(t), b, limit, qty, fills, left)
  {
    hide QueuesOk, HomeOk, FreeOk, Greedy, Exposed;
    OfferedSound(s, b, limit);
    GreedyShift(Offered(s), Offered(t), 0, b, limit, qty, fills, left);
  }
}
