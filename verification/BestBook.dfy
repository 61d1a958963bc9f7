/** Best bid and ask from level updates, with heaps whose stale entries are removed lazily. */
module BestBooks {
  import opened Heaps

  datatype Side = Buy | Sell | Other

  datatype Option<T> = None | Some(value: T)

  function Key(x: int): real {
    x as real
  }

  /** The greatest key, or nothing when there is none. */
  ghost predicate IsMax(levels: map<int, int>, best: Option<int>) {
    match best
    case None => forall p :: p !in levels
    case Some(p) => p in levels && forall q :: q in levels ==> q <= p
  }

  ghost predicate IsMin(levels: map<int, int>, best: Option<int>) {
    match best
    case None => forall p :: p !in levels
    case Some(p) => p in levels && forall q :: q in levels ==> p <= q
  }

  /** The volume map after an update. */
  function Updated(levels: map<int, int>, price: int, volume: int): map<int, int> {
    if volume > 0 then levels[price := volume] else levels - {price}
  }

  class BestBook {
    var bidVol: map<int, int>
    var askVol: map<int, int>
    var bidHeap: multiset<int>
    var askHeap: multiset<int>

    /** Every live level is in its heap; the heaps may hold more. */
    ghost predicate Valid()
      reads this
    {
      && (forall p :: p in bidVol ==> bidVol[p] > 0 && -p in bidHeap)
      && (forall p :: p in askVol ==> askVol[p] > 0 && p in askHeap)
    }

    constructor ()
      ensures Valid() && bidVol == map[] && askVol == map[]
    {
      bidVol, askVol := map[], map[];
      bidHeap, askHeap := multiset{}, multiset{};
    }

    method UpdateLevel(price: int, side: Side, totalVolume: int)
      requires Valid()
      modifies this
      ensures Valid()
      ensures bidVol == if side.Buy? then Updated(old(bidVol), price, totalVolume) else old(bidVol)
      ensures askVol == if side.Sell? then Updated(old(askVol), price, totalVolume) else old(askVol)
    {
      if side.Buy? {
        if totalVolume > 0 {
          bidVol := bidVol[price := totalVolume];
          bidHeap := bidHeap + multiset{-price};
        } else {
          bidVol := bidVol - {price};
        }
      } else if side.Sell? {
        if totalVolume > 0 {
          askVol := askVol[price := totalVolume];
          askHeap := askHeap + multiset{price};
        } else {
          askVol := askVol - {price};
        }
      }
    }

    /** The best bid is the greatest price of the volume map, whatever stale entries the heap has. */
    method BestBid() returns (best: Option<int>)
      requires Valid()
      modifies this`bidHeap
      ensures Valid() && IsMax(bidVol, best)
    {
      while bidHeap != multiset{}
        invariant Valid()
        decreases |bidHeap|
      {
        var top := Top(bidHeap, Key);
        var p := -top;
        if p in bidVol && bidVol[p] > 0 {
          assert forall q :: q in bidVol ==> -q in bidHeap;
          return Some(p);
        }
        bidHeap := bidHeap - multiset{top};
      }
      return None;
    }

    method BestAsk() returns (best: Option<int>)
      requires Valid()
      modifies this`askHeap
      ensures Valid() && IsMin(askVol, best)
    {
      while askHeap != multiset{}
        invariant Valid()
        decreases |askHeap|
      {
        var p := Top(askHeap, Key);
        if p in askVol && askVol[p] > 0 {
          return Some(p);
        }
        askHeap := askHeap - multiset{p};
      }
      return None;
    }
  }

  // ----- Any sequence of updates -----

  datatype Update = Update(price: int, side: Side, volume: int)

  /** No update after the i-th is about this price. */
  predicate Untouched(us: seq<Update>, i: int, side: Side, p: int) {
    forall j :: 0 <= j < |us| && i < j ==> us[j].price != p || us[j].side != side
  }

  /** The last update of this price has this volume. */
  ghost predicate LastVolume(us: seq<Update>, side: Side, p: int, v: int) {
    exists i :: 0 <= i < |us| && us[i] == Update(p, side, v) && Untouched(us, i, side, p)
  }

  function Levels(us: seq<Update>, side: Side): map<int, int> {
    if us == [] then map[]
    else
      var u := us[|us| - 1];
      var m := Levels(us[..|us| - 1], side);
      if u.side == side then Updated(m, u.price, u.volume) else m
  }

  /** The volume map holds exactly the prices whose last update had a positive volume. */
  lemma {:induction false} LevelsAreLast(us: seq<Update>, side: Side, p: int)
    ensures p in Levels(us, side) ==> Levels(us, side)[p] > 0 && LastVolume(us, side, p, Levels(us, side)[p])
    ensures forall v :: LastVolume(us, side, p, v) ==> (v > 0 <==> p in Levels(us, side))
  {
    if us != [] {
      var n := |us| - 1;
      var prefix, u := us[..n], us[n];
      LevelsAreLast(prefix, side, p);
      if u.side == side && u.price == p {
        assert us[n] == Update(p, side, u.volume);
        assert LastVolume(us, side, p, u.volume);
      } else {
        if p in Levels(prefix, side) {
          LastExtends(us, side, p, Levels(prefix, side)[p]);
        }
        forall v | LastVolume(us, side, p, v) ensures LastVolume(prefix, side, p, v) {
          var i :| 0 <= i < |us| && us[i] == Update(p, side, v) && Untouched(us, i, side, p);
          assert prefix[i] == us[i] && Untouched(prefix, i, side, p);
        }
      }
    }
  }

  lemma LastExtends(us: seq<Update>, side: Side, p: int, v: int)
    requires us != [] && LastVolume(us[..|us| - 1], side, p, v)
    requires us[|us| - 1].side != side || us[|us| - 1].price != p
    ensures LastVolume(us, side, p, v)
  {
    var prefix := us[..|us| - 1];
    var i :| 0 <= i < |prefix| && prefix[i] == Update(p, side, v) && Untouched(prefix, i, side, p);
    forall j | 0 <= j < |us| && i < j ensures us[j].price != p || us[j].side != side {
      if j < |prefix| {
        assert us[j] == prefix[j];
      }
    }
    assert us[i] == prefix[i] && Untouched(us, i, side, p);
  }

  /** After any updates, interleaved with any number of queries, the best queries answer for the
      levels the updates define. */
  method Replay(us: seq<Update>) returns (bid: Option<int>, ask: Option<int>)
    ensures IsMax(Levels(us, Buy), bid)
    ensures IsMin(Levels(us, Sell), ask)
  {
    var book := new BestBook();
    for i := 0 to |us|
      invariant fresh(book) && book.Valid()
      invariant book.bidVol == Levels(us[..i], Buy) && book.askVol == Levels(us[..i], Sell)
    {
      book.UpdateLevel(us[i].price, us[i].side, us[i].volume);
      assert us[..i + 1][..i] == us[..i] && us[..i + 1][i] == us[i];
      if * {
        var peek := book.BestBid();
      }
      if * {
        var peek := book.BestAsk();
      }
    }
    assert us[..|us|] == us;
    bid := book.BestBid();
    ask := book.BestAsk();
  }
}
