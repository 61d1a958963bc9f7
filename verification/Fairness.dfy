/** Price-time priority and trade prices over whole runs. */
module Fairness {
  import opened Types
  import opened Matching
  import opened BookModel
  import opened PriceTime
  import opened BestPrice
  import opened IdIndex
  import opened Ranking

  function TakerOf(b: Book, c: Command): Taker
    requires c.Submit?
  {
    Taker(c.client, Wrap(b.accepted), c.quantity)
  }

  /** An accepted submission reports exactly the trades of its matching. */
  lemma SubmitTrades(b: Book, c: Command)
    requires BookOk(b) && Accepted(c)
    ensures OnlyTrades(Apply(b, c).events) ==
            OnlyTrades(MatchIncoming(b, c.price, c.quantity, c.isBid, c.client).events)
    ensures SideOf(Apply(b, c).book, !c.isBid) == MatchIncoming(b, c.price, c.quantity, c.isBid, c.client).side
  {
    hide QueuesOk, HomeOk, FreeOk, IdsSide, MatchSide, OnlyTrades;
    var m := MatchIncoming(b, c.price, c.quantity, c.isBid, c.client);
    var more := Apply(b, c).events[|m.events|..];
    assert Apply(b, c).events == m.events + more;
    OnlyTradesConcat(m.events, more);
    NoTrades(more);
  }

  lemma {:induction false} NoTrades(events: seq<Event>)
    requires forall i :: 0 <= i < |events| ==> !events[i].Trade?
    ensures OnlyTrades(events) == []
  {
    if events != [] {
      NoTrades(events[1..]);
    }
  }

  /** On every run, every trade executes at its maker's price, within the taker's limit and against
      the other side. */
  lemma TradesWithinLimit(cs: seq<Command>, c: Command)
    requires Accepted(c)
    ensures var trades := OnlyTrades(Apply(Run(cs), c).events);
            forall i :: 0 <= i < |trades| ==>
              && trades[i].Trade?
              && trades[i].price == trades[i].maker.price
              && trades[i].maker.isBid == !c.isBid
              && Acceptable(!c.isBid, trades[i].price, c.price)
              && 0 < trades[i].quantity
              && trades[i].takerId == Wrap(Run(cs).accepted) && trades[i].takerClient == c.client
  {
    hide BookOk, MatchSide, Apply, Run;
    var b := Run(cs);
    SubmitTrades(b, c);
    var limit := RankOf(!c.isBid, c.price);
    BookSides(b);
    TradesAreFills(SideOf(b, !c.isBid), b.ids, limit, TakerOf(b, c), c.quantity);
    var m := MatchIncoming(b, c.price, c.quantity, c.isBid, c.client);
    TradesOfShape(m.fills, TakerOf(b, c), c.quantity);
  }

  lemma {:induction false} TradesOfShape(fills: seq<Fill>, taker: Taker, left: nat)
    requires SumFills(fills) <= left <= taker.total
    requires forall i :: 0 <= i < |fills| ==> Sound(fills[i].maker) && fills[i].quantity <= fills[i].maker.remaining
    ensures var ts := TradesOf(fills, taker, left);
            && |ts| == |fills|
            && forall i :: 0 <= i < |ts| ==>
                 && ts[i].Trade?
                 && ts[i].maker == Traded(fills[i].maker, fills[i].quantity)
                 && ts[i].price == fills[i].maker.price
                 && ts[i].quantity == fills[i].quantity
                 && ts[i].takerId == taker.id && ts[i].takerClient == taker.client
  {
    if fills != [] {
      TradesOfShape(fills[1..], taker, left - fills[0].quantity);
    }
  }

  /** Greedy filling fits the taker and the makers. */
  lemma {:induction false} FillUpToFits(ranking: seq<Order>, limit: int, qty: nat)
    requires AllSound(ranking)
    ensures var f := FillUpTo(ranking, limit, qty);
            SumFills(f.fills) + f.left == qty && FillsFit(f.fills)
  {
    hide FillsFit;
    if ranking == [] || qty == 0 || !Acceptable(ranking[0].isBid, ranking[0].price, limit) {
      NoFills();
    } else {
      var o := ranking[0];
      assert Sound(o);
      if o.remaining <= qty {
        FillUpToFits(ranking[1..], limit, qty - o.remaining);
        FitsCons(Fill(o, o.remaining), FillUpTo(ranking[1..], limit, qty - o.remaining).fills);
      } else {
        NoFills();
        FitsCons(Fill(o, qty), []);
        assert [Fill(o, qty)] + [] == [Fill(o, qty)];
      }
    }
  }

  predicate FillsFit(fills: seq<Fill>) {
    forall i :: 0 <= i < |fills| ==> Sound(fills[i].maker) && fills[i].quantity <= fills[i].maker.remaining
  }

  lemma NoFills()
    ensures SumFills([]) == 0 && FillsFit([])
  {
  }

  lemma FitsCons(f: Fill, fills: seq<Fill>)
    requires Sound(f.maker) && f.quantity <= f.maker.remaining && FillsFit(fills)
    ensures FillsFit([f] + fills) && SumFills([f] + fills) == f.quantity + SumFills(fills)
  {
    assert ([f] + fills)[1..] == fills;
  }

  /** The trade callbacks determine the fills. */
  lemma {:induction false} TradesDiffer(a: seq<Fill>, b: seq<Fill>, taker: Taker, left: nat)
    requires SumFills(a) <= left <= taker.total && SumFills(b) <= left && FillsFit(a) && FillsFit(b)
    requires TradesOf(a, taker, left) == TradesOf(b, taker, left)
    ensures a == b
  {
    if a != [] && b != [] {
      assert TradesOf(a, taker, left)[0] == TradesOf(b, taker, left)[0];
      assert TradesOf(a, taker, left)[1..] == TradesOf(b, taker, left)[1..];
      TradesDiffer(a[1..], b[1..], taker, left - a[0].quantity);
      assert a == [a[0]] + a[1..] && b == [b[0]] + b[1..];
    }
  }

  /** On every run of at most 2^32 accepted submissions, the trades of the next submission are those
      of filling, up to its limit, any list that ranks the other side's resting orders by price and
      then arrival, if and only if that does not reach hidden orders; the other side then holds what
      the filling leaves. */
  lemma RunPriceTime(cs: seq<Command>, c: Command, ranking: seq<Order>)
    requires Run(cs).accepted <= U32 && Accepted(c)
    requires Ranked(ranking) && multiset(ranking) == multiset(Resting(SideOf(Run(cs), !c.isBid)))
    ensures AllSound(ranking)
    ensures var f := FillUpTo(ranking, c.price, c.quantity);
            var reached := Misses(SideOf(Run(cs), !c.isBid), RankOf(!c.isBid, c.price), c.quantity);
            && SumFills(f.fills) <= c.quantity && FillsFit(f.fills)
            && (OnlyTrades(Apply(Run(cs), c).events) == TradesOf(f.fills, TakerOf(Run(cs), c), c.quantity) <==>
                  !reached)
            && (!reached ==> Resting(SideOf(Apply(Run(cs), c).book, !c.isBid)) == f.rest)
  {
    hide BookOk, MatchSide, Apply, Run, SideIndexed, FillUpTo, Ranked, Resting, Misses;
    var b := Run(cs);
    BookSides(b);
    RunIndexed(cs);
    SubmitTrades(b, c);
    var s := SideOf(b, !c.isBid);
    PriceTimePriority(s, b.ids, b.accepted, c.price, TakerOf(b, c), c.quantity, ranking);
    TradesAreFills(s, b.ids, RankOf(!c.isBid, c.price), TakerOf(b, c), c.quantity);
    FillUpToFits(ranking, c.price, c.quantity);
    var m := MatchIncoming(b, c.price, c.quantity, c.isBid, c.client);
    var f := FillUpTo(ranking, c.price, c.quantity);
    if TradesOf(m.fills, TakerOf(b, c), c.quantity) == TradesOf(f.fills, TakerOf(b, c), c.quantity) {
      TradesDiffer(m.fills, f.fills, TakerOf(b, c), c.quantity);
    }
  }

  /** With an exact best price and totals that do not wrap, the ranking never reaches hidden orders. */
  lemma RunNeverMisses(cs: seq<Command>, c: Command)
    requires Careful(cs) && NoWraps(Run(cs)) && Accepted(c)
    ensures !Misses(SideOf(Run(cs), !c.isBid), RankOf(!c.isBid, c.price), c.quantity)
  {
    hide BookOk, Careful, Run, Misses, NoWrap, TrueBest;
    BookSides(Run(cs));
    RunExact(cs);
    ExactNeverMisses(SideOf(Run(cs), !c.isBid), RankOf(!c.isBid, c.price), c.quantity);
  }
}
