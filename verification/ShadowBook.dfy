/** The market simulator's replica of the book's levels. */
module ShadowBook {
  import opened Types
  import opened MarketData

  /** The quotes of a snapshot message side: unused entries carry zero volume. */
  function Quotes(prices: seq<int>, volumes: seq<u32>): (qs: seq<Quote>)
    requires |prices| == |volumes|
    ensures |qs| == |prices|
  {
    seq(|prices|, i requires 0 <= i < |prices| => Quote(prices[i], volumes[i]))
  }

  function AddQuote(levels: map<int, u32>, q: Quote): map<int, u32> {
    if q.volume > 0 then levels[q.price := q.volume] else levels
  }

  lemma {:induction false} FromQuotesSnoc(h: Half, qs: seq<Quote>, q: Quote)
    ensures FromQuotes(h, qs + [q]).levels == AddQuote(FromQuotes(h, qs).levels, q)
    decreases |qs|
  {
    if qs == [] {
      assert qs + [q] == [q];
      assert [q][1..] == [];
    } else {
      assert (qs + [q])[1..] == qs[1..] + [q];
      FromQuotesSnoc(Noted(h, qs[0]), qs[1..], q);
    }
  }

  /** Padding a snapshot with empty entries does not change what a replica makes of it. */
  lemma {:induction false} PaddingIgnored(qs: seq<Quote>, n: nat)
    ensures FromQuotes(NOTHING, qs + seq(n, _ => Quote(0, 0))).levels == FromQuotes(NOTHING, qs).levels
  {
    if n == 0 {
      assert qs + seq(0, _ => Quote(0, 0)) == qs;
    } else {
      assert qs + seq(n, _ => Quote(0, 0)) == (qs + seq(n - 1, _ => Quote(0, 0))) + [Quote(0, 0)];
      FromQuotesSnoc(NOTHING, qs + seq(n - 1, _ => Quote(0, 0)), Quote(0, 0));
      PaddingIgnored(qs, n - 1);
    }
  }

  class ShadowOrderBook {
    var bids: map<int, u32>
    var asks: map<int, u32>

    constructor ()
      ensures bids == map[] && asks == map[]
    {
      bids := map[];
      asks := map[];
    }

    /** Replace the replica by a snapshot message. */
    method OnOrderBookSnapshot(askPrices: seq<int>, askVolumes: seq<u32>, bidPrices: seq<int>, bidVolumes: seq<u32>)
      requires |askPrices| == |askVolumes| == |bidPrices| == |bidVolumes| == SNAPSHOT_DEPTH
      modifies this
      ensures asks == FromQuotes(NOTHING, Quotes(askPrices, askVolumes)).levels
      ensures bids == FromQuotes(NOTHING, Quotes(bidPrices, bidVolumes)).levels
    {
      bids, asks := map[], map[];
      ghost var aq, bq := Quotes(askPrices, askVolumes), Quotes(bidPrices, bidVolumes);
      for i := 0 to |askPrices|
        invariant asks == FromQuotes(NOTHING, aq[..i]).levels
        invariant bids == FromQuotes(NOTHING, bq[..i]).levels
      {
        if askVolumes[i] > 0 {
          asks := asks[askPrices[i] := askVolumes[i]];
        }
        if bidVolumes[i] > 0 {
          bids := bids[bidPrices[i] := bidVolumes[i]];
        }
        FromQuotesSnoc(NOTHING, aq[..i], aq[i]);
        FromQuotesSnoc(NOTHING, bq[..i], bq[i]);
        assert aq[..i + 1] == aq[..i] + [aq[i]];
        assert bq[..i + 1] == bq[..i] + [bq[i]];
      }
      assert aq[..|askPrices|] == aq;
      assert bq[..|askPrices|] == bq;
    }

    /** Apply one price-level update. */
    method OnPriceLevelUpdate(isBid: bool, price: int, total: u32)
      modifies this
      ensures bids == if isBid then SetLevel(old(bids), price, total) else old(bids)
      ensures asks == if isBid then old(asks) else SetLevel(old(asks), price, total)
    {
      if total == 0 {
        if isBid {
          bids := bids - {price};
        } else {
          asks := asks - {price};
        }
      } else {
        if isBid {
          bids := bids[price := total];
        } else {
          asks := asks[price := total];
        }
      }
    }

    /** Apply a stretch of the feed, ignoring other messages. */
    method Feed(events: seq<Event>, ghost b: Half, ghost a: Half)
      requires bids == b.levels && asks == a.levels
      modifies this
      ensures bids == SeeAll(b, true, events).levels && asks == SeeAll(a, false, events).levels
    {
      ghost var h, g := b, a;
      for i := 0 to |events|
        invariant bids == h.levels && asks == g.levels
        invariant SeeAll(b, true, events) == SeeAll(h, true, events[i..])
        invariant SeeAll(a, false, events) == SeeAll(g, false, events[i..])
      {
        if events[i].LevelUpdate? {
          OnPriceLevelUpdate(events[i].isBid, events[i].price, events[i].total);
        }
        assert events[i..][0] == events[i] && events[i..][1..] == events[i + 1..];
        h, g := See(h, true, events[i]), See(g, false, events[i]);
      }
    }
  }
}
