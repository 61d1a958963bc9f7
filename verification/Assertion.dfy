/** The assertion at the end of a submission: the cached best bid is below the cached best ask. When
    it holds, and which request breaks it. */
module Assertion {
  import opened Types
  import opened BookModel
  import opened PriceTime
  import opened BestPrice

  /** What the assertion says of the cached best prices. */
  predicate CachedUncrossed(b: Book) {
    b.bids.best >= NUM_LEVELS || b.asks.best >= NUM_LEVELS || PriceOf(true, b.bids.best) < PriceOf(false, b.asks.best)
  }

  /** The assertion holds of every uncrossed book; of an exact book it says that it is uncrossed. */
  lemma AssertionMeaning(b: Book)
    requires BookOk(b)
    ensures NotCrossed(b) ==> CachedUncrossed(b)
    ensures Exact(b) && CachedUncrossed(b) ==> NotCrossed(b)
  {
    hide QueuesOk, HomeOk, FreeOk, IdsSide;
  }

  /** The rank, on the other side, of a price that has rank r on this side. */
  function Opposite(isBid: bool, r: nat): int {
    RankOf(!isBid, PriceOf(isBid, r))
  }

  lemma UncrossedRanks(b: Book, isBid: bool)
    requires BookOk(b)
    ensures var own, s := SideOf(b, isBid), SideOf(b, !isBid);
            CachedUncrossed(b) <==> own.best == NUM_LEVELS || Opposite(isBid, own.best) < s.best
  {
    hide SideOk, IdsSide;
    BookSides(b);
    SideLength(b.bids);
    SideLength(b.asks);
  }

  // ----- The assertion after one submission -----

  /** No own best price is cached, or the submission takes everything the other side offers up to
      that price. */
  predicate KeepsApart(b: Book, c: Command)
    requires Accepted(c)
  {
    var own, s := SideOf(b, c.isBid), SideOf(b, !c.isBid);
    var k := Opposite(c.isBid, own.best);
    || own.best == NUM_LEVELS
    || (Within(s, RankOf(!c.isBid, c.price), k + 1) && OfferedBefore(s, k + 1) <= c.quantity)
  }

  /** What a submission does to the cached best prices. */
  lemma SubmitBests(b: Book, c: Command)
    requires BookOk(b) && Accepted(c)
    ensures var m := MatchIncoming(b, c.price, c.quantity, c.isBid, c.client);
            var b' := Apply(b, c).book;
            var r := RankOf(c.isBid, c.price);
            var own, own' := SideOf(b, c.isBid).best, SideOf(b', c.isBid).best;
            && SideOf(b', !c.isBid).best == m.side.best <= NUM_LEVELS
            && SideOf(b, !c.isBid).best <= m.side.best
            && (own' == own || (own' == r && (own == NUM_LEVELS || r < own) && 0 < m.left))
            && (0 < m.left ==> m.side.best == NUM_LEVELS || RankOf(!c.isBid, c.price) < m.side.best)
  {
    hide SideOk, IdsSide, MatchSide, LearnId, Framed;
    BookSides(b);
    var s, taker := SideOf(b, !c.isBid), Taker(c.client, Wrap(b.accepted), c.quantity);
    var m := MatchIncoming(b, c.price, c.quantity, c.isBid, c.client);
    MatchSideFrame(s, b.ids, RankOf(!c.isBid, c.price), taker, c.quantity);
    FramedBest(s, m.side, RankOf(!c.isBid, c.price));
    AfterMatchOk(b, c.price, c.quantity, c.isBid, c.client);
    SideLength(m.side);
  }

  /** After every accepted submission, on every book: the assertion holds if and only if no own best
      price was cached before, or the submission takes everything the other side offers up to it. */
  lemma SubmitAsserts(b: Book, c: Command)
    requires BookOk(b) && Accepted(c)
    ensures CachedUncrossed(Apply(b, c).book) <==> KeepsApart(b, c)
  {
    hide SideOk, IdsSide, MatchSide, Apply, Within, OfferedBefore, CachedUncrossed;
    BookSides(b);
    var own, s := SideOf(b, c.isBid), SideOf(b, !c.isBid);
    SideLength(own);
    SubmitBests(b, c);
    ApplyOk(b, c);
    UncrossedRanks(Apply(b, c).book, c.isBid);
    if own.best < NUM_LEVELS {
      var taker := Taker(c.client, Wrap(b.accepted), c.quantity);
      PassedLevel(s, b.ids, RankOf(!c.isBid, c.price), taker, c.quantity, Opposite(c.isBid, own.best));
    }
  }

  // ----- The request that breaks it -----

  /** A bid level with a positive total at or above the cached best ask, other than level r. */
  predicate Uncovered(b: Book, r: nat) {
    exists i :: 0 <= i < |b.bids.queues| && i != r && Total(b.bids.queues[i]) > 0 && Opposite(true, i) >= b.asks.best
  }

  /** An amendment of a bid, while no best bid is cached, that brings its level's total to 0: the
      re-scan starts at the top and finds a bid at or above the cached best ask. */
  predicate Uncovers(b: Book, c: Command)
    requires BookOk(b)
  {
    && c.Amend?
    && var p := Lookup(b, c.id);
    && p.At? && p.isBid
    && var o := OrderAt(b, p);
    && o.clientId == c.client && Amendable(o, c.newQuantity) && c.newQuantity - o.cumulative != o.remaining
    && b.bids.best == NUM_LEVELS && b.asks.best < NUM_LEVELS
    && Wrap(SumRemaining(b.bids.queues[p.r]) - o.remaining + (c.newQuantity - o.cumulative)) == 0
    && Uncovered(b, p.r)
  }

  lemma SubmitKeepsApart(b: Book, c: Command)
    requires BookOk(b) && CachedUncrossed(b) && c.Submit?
    ensures CachedUncrossed(Apply(b, c).book)
  {
    hide SideOk, IdsSide, MatchSide, Rest, CachedUncrossed;
    if Accepted(c) {
      SubmitBests(b, c);
      ApplyOk(b, c);
      BookSides(b);
      SideLength(SideOf(b, c.isBid));
      UncrossedRanks(b, c.isBid);
      UncrossedRanks(Apply(b, c).book, c.isBid);
    }
  }

  lemma CancelKeepsApart(b: Book, c: Command)
    requires BookOk(b) && CachedUncrossed(b) && c.Cancel?
    ensures CachedUncrossed(Apply(b, c).book)
  {
    hide SideOk, IdsSide, Lookup, ScanFrom;
    BookSides(b);
    var p := Lookup(b, c.id);
    if p.At? {
      ScanBehind(RemoveAt(SideOf(b, p.isBid), p.r, p.k).queues, p.r + 1);
    }
  }

  lemma ScanBehind(qs: seq<seq<Order>>, r: nat)
    requires |qs| == NUM_LEVELS && r <= NUM_LEVELS
    ensures r <= ScanFrom(qs, r) <= NUM_LEVELS
  {
  }

  /** What an effective amendment does to its side's best price. */
  lemma ReducedBest(s: Side, r: nat, k: nat, o: Order)
    requires SideOk(s) && r < NUM_LEVELS && k < |s.queues[r]|
    ensures var t := ReducedSide(s, r, k, o);
            var zero := Wrap(SumRemaining(s.queues[r]) - s.queues[r][k].remaining + o.remaining) == 0;
            && t.isBid == s.isBid && |t.queues| == NUM_LEVELS
            && t.best == (if zero then ScanFrom(t.queues, ScanStart(s)) else s.best)
            && t.queues == s.queues[r := t.queues[r]]
            && (zero ==> Total(t.queues[r]) == 0)
  {
    hide SideOk, Total, SumRemaining, Wrap, ScanFrom;
    SideLength(s);
    LoweredTotal(s.queues[r], k, o);
    ReducedForm(s, r, k, o);
  }

  /** A scan from the top stops at or before rank `bound` exactly when a level there shows a total. */
  lemma ScanFromTop(qs: seq<seq<Order>>, bound: int)
    requires |qs| == NUM_LEVELS
    ensures var best := ScanFrom(qs, 0);
            best < NUM_LEVELS && best <= bound <==> exists i :: 0 <= i < |qs| && Total(qs[i]) > 0 && i <= bound
  {
    hide Total;
    var best := ScanFrom(qs, 0);
    if i :| 0 <= i < |qs| && Total(qs[i]) > 0 && i <= bound {
      assert best <= i;
    }
  }

  lemma AmendedBids(b: Book, c: Command, p: Place)
    requires BookOk(b) && CachedUncrossed(b) && c.Amend? && p == Lookup(b, c.id) && p.At? && p.isBid
    requires Amendable(OrderAt(b, p), c.newQuantity)
    ensures var o := OrderAt(b, p);
            var t := ReducedSide(b.bids, p.r, p.k, Resized(o, c.newQuantity));
            var zero := Wrap(SumRemaining(b.bids.queues[p.r]) - o.remaining + (c.newQuantity - o.cumulative)) == 0;
            CachedUncrossed(b.(bids := t)) <==>
            !(zero && b.bids.best == NUM_LEVELS && b.asks.best < NUM_LEVELS && Uncovered(b, p.r))
  {
    hide SideOk, IdsSide, Lookup, ScanFrom, ReducedSide, Total, SumRemaining, Wrap;
    BookSides(b);
    SideLength(b.bids);
    SideLength(b.asks);
    var o := OrderAt(b, p);
    var o' := Resized(o, c.newQuantity);
    ReducedBest(b.bids, p.r, p.k, o');
    var t := ReducedSide(b.bids, p.r, p.k, o');
    if b.bids.best < NUM_LEVELS {
      ScanBehind(t.queues, b.bids.best + 1);
    } else if b.asks.best < NUM_LEVELS && Wrap(SumRemaining(b.bids.queues[p.r]) - o.remaining + o'.remaining) == 0 {
      ScanFromTop(t.queues, NUM_LEVELS - 1 - b.asks.best);
      UncoveredAfter(b, t, p.r);
    }
  }

  lemma UncoveredAfter(b: Book, t: Side, r: nat)
    requires |b.bids.queues| == |t.queues| == NUM_LEVELS && r < NUM_LEVELS
    requires t.queues == b.bids.queues[r := t.queues[r]] && Total(t.queues[r]) == 0
    ensures Uncovered(b, r) <==>
            exists i :: 0 <= i < |t.queues| && Total(t.queues[i]) > 0 && i <= NUM_LEVELS - 1 - b.asks.best
  {
    hide Total;
    if Uncovered(b, r) {
      var i :| 0 <= i < |b.bids.queues| && i != r && Total(b.bids.queues[i]) > 0 && Opposite(true, i) >= b.asks.best;
      assert t.queues[i] == b.bids.queues[i];
    }
    if i :| 0 <= i < |t.queues| && Total(t.queues[i]) > 0 && i <= NUM_LEVELS - 1 - b.asks.best {
      assert t.queues[i] == b.bids.queues[i] && i != r;
    }
  }

  lemma AmendedAsks(b: Book, p: Place, o: Order)
    requires BookOk(b) && CachedUncrossed(b) && ValidPlace(b, p) && !p.isBid
    ensures CachedUncrossed(b.(asks := ReducedSide(b.asks, p.r, p.k, o)))
  {
    hide SideOk, IdsSide, ScanFrom, ReducedSide, Total, SumRemaining, Wrap;
    BookSides(b);
    SideLength(b.asks);
    ReducedBest(b.asks, p.r, p.k, o);
    var t := ReducedSide(b.asks, p.r, p.k, o);
    ScanBehind(t.queues, ScanStart(b.asks));
  }

  lemma AmendBreaks(b: Book, c: Command)
    requires BookOk(b) && CachedUncrossed(b) && c.Amend?
    ensures CachedUncrossed(Apply(b, c).book) <==> !Uncovers(b, c)
  {
    hide SideOk, IdsSide, Lookup, ReducedSide, SumRemaining, Wrap, Uncovered, CachedUncrossed, ReduceAt;
    BookSides(b);
    var p := Lookup(b, c.id);
    if p.At? {
      var o := OrderAt(b, p);
      if o.clientId == c.client && Amendable(o, c.newQuantity) && c.newQuantity - o.cumulative != o.remaining {
        ReducedBests(b, p, c.request, c.newQuantity);
        if p.isBid {
          AmendedBids(b, c, p);
        } else {
          AmendedAsks(b, p, Resized(o, c.newQuantity));
        }
      }
    }
  }

  /** Only the amended side matters to the assertion. */
  lemma ReducedBests(b: Book, p: Place, request: u32, newQuantity: u32)
    requires BookOk(b) && ValidPlace(b, p) && OrderAt(b, p).cumulative <= newQuantity
    ensures var t := ReducedSide(SideOf(b, p.isBid), p.r, p.k, Resized(OrderAt(b, p), newQuantity));
            CachedUncrossed(ReduceAt(b, p, request, newQuantity).book) <==>
            CachedUncrossed(if p.isBid then b.(bids := t) else b.(asks := t))
  {
    hide SideOk, IdsSide, ReducedSide, SumRemaining, Wrap;
    BookSides(b);
    ReducedBest(SideOf(b, p.isBid), p.r, p.k, Resized(OrderAt(b, p), newQuantity));
  }

  /** A request breaks what the assertion says if and only if it is such an amendment; submissions
      and cancellations never do. */
  lemma ApplyBreaks(b: Book, c: Command)
    requires BookOk(b) && CachedUncrossed(b)
    ensures CachedUncrossed(Apply(b, c).book) <==> !Uncovers(b, c)
  {
    hide BookOk, CachedUncrossed, Apply;
    match c
    case Submit(_, _, _, _, _) => SubmitKeepsApart(b, c);
    case Cancel(_, _, _) => CancelKeepsApart(b, c);
    case Amend(_, _, _, _) => AmendBreaks(b, c);
  }

  // ----- Runs -----

  /** The cached best prices stay apart throughout a run if and only if the run has no such
      amendment. */
  lemma ApartThroughout(cs: seq<Command>)
    ensures (forall n :: 0 <= n <= |cs| ==> CachedUncrossed(Run(cs[..n]))) <==>
            (forall n :: 0 <= n < |cs| ==> !Uncovers(Run(cs[..n]), cs[n]))
  {
    hide BookOk, Uncovers, Apply, CachedUncrossed, Run;
    if forall n :: 0 <= n < |cs| ==> !Uncovers(Run(cs[..n]), cs[n]) {
      forall n | 0 <= n <= |cs| ensures CachedUncrossed(Run(cs[..n])) {
        ApartTo(cs, n);
      }
    }
    if forall n :: 0 <= n <= |cs| ==> CachedUncrossed(Run(cs[..n])) {
      forall n | 0 <= n < |cs| ensures !Uncovers(Run(cs[..n]), cs[n]) {
        ApplyBreaks(Run(cs[..n]), cs[n]);
        RunPrefixStep(cs, n);
      }
    }
  }

  lemma {:induction false} ApartTo(cs: seq<Command>, n: nat)
    requires n <= |cs| && forall i :: 0 <= i < |cs| ==> !Uncovers(Run(cs[..i]), cs[i])
    ensures CachedUncrossed(Run(cs[..n]))
  {
    hide BookOk, Uncovers, Apply, CachedUncrossed, Run;
    if n == 0 {
      EmptyApart(cs);
    } else {
      ApartTo(cs, n - 1);
      ApplyBreaks(Run(cs[..n - 1]), cs[n - 1]);
      RunPrefixStep(cs, n - 1);
    }
  }

  lemma EmptyApart(cs: seq<Command>)
    ensures CachedUncrossed(Run(cs[..0]))
  {
  }

  /** The assertion after the n-th request of a run, if that is an accepted submission. */
  predicate AssertedAt(cs: seq<Command>, n: nat)
    requires n < |cs|
  {
    Accepted(cs[n]) ==> CachedUncrossed(Run(cs[..n + 1]))
  }

  /** No assertion fails on a run if and only if each of its accepted submissions keeps the cached
      best prices apart. */
  lemma AssertedThroughout(cs: seq<Command>)
    ensures (forall n :: 0 <= n < |cs| ==> AssertedAt(cs, n)) <==>
            (forall n :: 0 <= n < |cs| && Accepted(cs[n]) ==> KeepsApart(Run(cs[..n]), cs[n]))
  {
    hide BookOk, KeepsApart, Apply, CachedUncrossed, Run, Accepted;
    forall n | 0 <= n < |cs| && Accepted(cs[n]) ensures AssertedAt(cs, n) <==> KeepsApart(Run(cs[..n]), cs[n]) {
      SubmitAsserts(Run(cs[..n]), cs[n]);
      RunPrefixStep(cs, n);
    }
  }
}
