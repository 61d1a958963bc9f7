/** First-come-first-served filling of a sequence of orders, and its reference definitions. */
module Matching {
  import opened Types

  /** `maker` is the resting order as it was before the trade. */
  datatype Fill = Fill(maker: Order, quantity: u32)

  datatype FillResult = FillResult(rest: seq<Order>, fills: seq<Fill>, left: nat)

  function Traded(o: Order, t: u32): Order
    requires t <= o.remaining && o.remaining + o.cumulative == o.quantity
  {
    o.(remaining := o.remaining - t, cumulative := o.cumulative + t)
  }

  /** The inner matching loop on one queue of orders. */
  function FillQueue(os: seq<Order>, qty: nat): (f: FillResult)
    requires AllSound(os)
    ensures f.left <= qty
    ensures os != [] && 0 < qty ==> f.left < qty
    ensures AllSound(f.rest)
    ensures |f.rest| <= |os|
    ensures 0 < f.left ==> f.rest == []
  {
    if os == [] || qty == 0 then FillResult(os, [], qty)
    else
      var t := Min(os[0].remaining, qty);
      assert Sound(os[0]);
      if t == os[0].remaining then
        var f := FillQueue(os[1..], qty - t);
        FillResult(f.rest, [Fill(os[0], t)] + f.fills, f.left)
      else
        FillResult([Traded(os[0], t)] + os[1..], [Fill(os[0], t)], 0)
  }

  function SumFills(fs: seq<Fill>): nat {
    if fs == [] then 0 else fs[0].quantity + SumFills(fs[1..])
  }

  /** Nothing is created or lost: what the taker got is what the makers gave. */
  lemma {:induction false} FillConserves(os: seq<Order>, qty: nat)
    requires AllSound(os)
    ensures var f := FillQueue(os, qty);
            && qty == f.left + SumFills(f.fills)
            && SumRemaining(os) == SumRemaining(f.rest) + SumFills(f.fills)
  {
    if os != [] && qty != 0 {
      var t := Min(os[0].remaining, qty);
      if t == os[0].remaining {
        FillConserves(os[1..], qty - t);
        var g := FillQueue(os[1..], qty - t);
        assert ([Fill(os[0], t)] + g.fills)[1..] == g.fills;
      } else {
        assert ([Traded(os[0], t)] + os[1..])[1..] == os[1..];
        assert [Fill(os[0], t)][1..] == [];
      }
    }
  }

  lemma FillCons(o: Order, os: seq<Order>, qty: nat)
    requires Sound(o) && AllSound(os) && 0 < qty
    ensures AllSound([o] + os)
    ensures var t := Min(o.remaining, qty);
            FillQueue([o] + os, qty) ==
            if t == o.remaining then
              var f := FillQueue(os, qty - t);
              FillResult(f.rest, [Fill(o, t)] + f.fills, f.left)
            else FillResult([Traded(o, t)] + os, [Fill(o, t)], 0)
  {
  }

  /** Closed form of greedy filling: maker i gets what is left after the makers ahead of it. */
  lemma {:induction false} FillIsGreedy(os: seq<Order>, qty: nat, i: nat)
    requires AllSound(os)
    requires i < |os|
    ensures var f := FillQueue(os, qty);
            var ahead := SumRemaining(os[..i]);
            && (i < |f.fills| <==> ahead < qty)
            && (i < |f.fills| ==> f.fills[i] == Fill(os[i], Min(os[i].remaining, qty - ahead)))
  {
    assert Sound(os[0]);
    if qty != 0 {
      var t := Min(os[0].remaining, qty);
      if i > 0 {
        assert os[..i][0] == os[0];
        assert os[..i][1..] == os[1..][..i - 1];
        if t == os[0].remaining {
          FillIsGreedy(os[1..], qty - t, i - 1);
        }
      }
    }
  }

  /** Closed form of the survivors: a maker leaves when the taker reaches its end, the maker at the
      taker's end keeps its place with what it has left, and the others are untouched. */
  lemma {:induction false} FillKeeps(os: seq<Order>, qty: nat, i: nat)
    requires AllSound(os)
    requires i < |os|
    ensures var f := FillQueue(os, qty);
            var ahead := SumRemaining(os[..i]);
            var gone := |os| - |f.rest|;
            && (i < gone <==> ahead + os[i].remaining <= qty)
            && (gone <= i ==> f.rest[i - gone] == if ahead < qty then Traded(os[i], qty - ahead) else os[i])
  {
    assert Sound(os[0]);
    if qty != 0 {
      var t := Min(os[0].remaining, qty);
      if i > 0 {
        assert os[..i][0] == os[0];
        assert os[..i][1..] == os[1..][..i - 1];
        if t == os[0].remaining {
          FillKeeps(os[1..], qty - t, i - 1);
        }
      } else if t == os[0].remaining {
        assert |FillQueue(os, qty).rest| <= |os[1..]|;
      }
    }
  }
}
