/** The pool and the level array as memory images: intrusive lists whose nodes are pool slots.
    A pointer is a slot index, NULL a null pointer. */
module Links {
  import opened Types
  import opened BookModel

  const NULL: int := -1

  /** One `Order` object: its link fields and its content. */
  datatype Node = Node(next: int, previous: int, order: Order)

  datatype PriceLevel = PriceLevel(first: int, last: int, total: u32, price: int, idx: nat)

  // ----- One level's queue -----

  /** first, last and the link fields thread exactly the orders of q, in order. */
  ghost predicate Chain(pool: seq<Node>, first: int, last: int, q: seq<Order>) {
    && (forall k :: 0 <= k < |q| ==> q[k].handle < |pool|)
    && (if q == [] then first == NULL && last == NULL
        else && first == q[0].handle
             && last == q[|q| - 1].handle
             && pool[q[0].handle].previous == NULL
             && pool[q[|q| - 1].handle].next == NULL)
    && (forall i, j :: 0 <= i < j < |q| && j == i + 1 ==>
          pool[q[i].handle].next == q[j].handle && pool[q[j].handle].previous == q[i].handle)
  }

  /** The slots of q hold the orders of q. */
  ghost predicate Stored(pool: seq<Node>, q: seq<Order>) {
    forall k :: 0 <= k < |q| ==> q[k].handle < |pool| && pool[q[k].handle].order == q[k]
  }

  ghost predicate Distinct(q: seq<Order>) {
    forall i, j :: 0 <= i < j < |q| ==> q[i].handle != q[j].handle
  }

  ghost predicate SameLinks(p: seq<Node>, p': seq<Node>, q: seq<Order>) {
    && |p| == |p'|
    && forall k :: 0 <= k < |q| && q[k].handle < |p| ==>
         p'[q[k].handle].next == p[q[k].handle].next && p'[q[k].handle].previous == p[q[k].handle].previous
  }

  lemma ChainFrame(p: seq<Node>, p': seq<Node>, first: int, last: int, q: seq<Order>)
    requires Chain(p, first, last, q) && SameLinks(p, p', q)
    ensures Chain(p', first, last, q)
  {
  }

  function LinkNext(p: seq<Node>, at: int, v: int): (p': seq<Node>)
    ensures |p'| == |p|
  {
    if 0 <= at < |p| then p[at := p[at].(next := v)] else p
  }

  function LinkPrevious(p: seq<Node>, at: int, v: int): (p': seq<Node>)
    ensures |p'| == |p|
  {
    if 0 <= at < |p| then p[at := p[at].(previous := v)] else p
  }

  /** Linking a node behind the last one appends it. */
  lemma ChainAppend(p: seq<Node>, p': seq<Node>, first: int, last: int, q: seq<Order>, o: Order)
    requires Chain(p, first, last, q) && Distinct(q) && o.handle < |p| == |p'|
    requires forall k :: 0 <= k < |q| ==> q[k].handle != o.handle
    requires p'[o.handle].next == NULL && p'[o.handle].previous == last
    requires forall h :: 0 <= h < |p| && h != o.handle && h != last ==>
               p'[h].next == p[h].next && p'[h].previous == p[h].previous
    requires last != NULL ==> p'[last].next == o.handle && p'[last].previous == p[last].previous
    ensures Chain(p', if last == NULL then o.handle else first, o.handle, q + [o])
  {
  }

  function Unlinked(p: seq<Node>, h: nat): (p': seq<Node>)
    requires h < |p|
    ensures |p'| == |p|
  {
    LinkPrevious(LinkNext(p, p[h].previous, p[h].next), p[h].next, p[h].previous)
  }

  lemma Neighbours(p: seq<Node>, first: int, last: int, q: seq<Order>, k: nat)
    requires Chain(p, first, last, q) && Distinct(q) && k < |q|
    ensures var h := q[k].handle;
            && h < |p|
            && p[h].previous == (if 0 < k then q[k - 1].handle else NULL)
            && p[h].next == (if k + 1 < |q| then q[k + 1].handle else NULL)
            && (0 < k ==> q[k - 1].handle != h)
            && (k + 1 < |q| ==> q[k + 1].handle != h)
  {
  }

  /** Bypassing a node removes it from the queue, wherever it stands. */
  lemma ChainRemove(p: seq<Node>, first: int, last: int, q: seq<Order>, k: nat)
    requires Chain(p, first, last, q) && Distinct(q) && k < |q|
    ensures var h := q[k].handle;
            Chain(Unlinked(p, h),
                  if p[h].previous == NULL then p[h].next else first,
                  if p[h].next == NULL then p[h].previous else last,
                  Without(q, k))
  {
    var h := q[k].handle;
    var q' := Without(q, k);
    var p' := Unlinked(p, h);
    Neighbours(p, first, last, q, k);
    forall i, j | 0 <= i < j < |q'| && j == i + 1
      ensures p'[q'[i].handle].next == q'[j].handle && p'[q'[j].handle].previous == q'[i].handle
    {
      LinkedAround(p, first, last, q, k, i);
    }
  }

  lemma LinkedAround(p: seq<Node>, first: int, last: int, q: seq<Order>, k: nat, i: nat)
    requires Chain(p, first, last, q) && Distinct(q) && k < |q| && i + 1 < |q| - 1
    ensures var p', q' := Unlinked(p, q[k].handle), Without(q, k);
            && q'[i].handle < |p| && q'[i + 1].handle < |p|
            && p'[q'[i].handle].next == q'[i + 1].handle && p'[q'[i + 1].handle].previous == q'[i].handle
  {
    Neighbours(p, first, last, q, k);
    var i' := if i >= k then i + 1 else i;
    var j' := if i + 1 >= k then i + 2 else i + 1;
    assert Without(q, k)[i] == q[i'] && Without(q, k)[i + 1] == q[j'];
    if i + 1 != k {
      assert p[q[i'].handle].next == q[j'].handle;
    }
  }

  // ----- The free list -----

  ghost predicate FreeChain(pool: seq<Node>, nextFree: int, free: seq<nat>) {
    && (forall k :: 0 <= k < |free| ==> free[k] < |pool|)
    && (if free == [] then nextFree == NULL
        else nextFree == free[0] && pool[free[|free| - 1]].next == NULL)
    && (forall i, j :: 0 <= i < j < |free| && j == i + 1 ==> pool[free[i]].next == free[j])
  }

  lemma FreeFrame(p: seq<Node>, p': seq<Node>, nextFree: int, free: seq<nat>)
    requires FreeChain(p, nextFree, free) && |p| == |p'|
    requires forall k :: 0 <= k < |free| && free[k] < |p| ==> p'[free[k]].next == p[free[k]].next
    ensures FreeChain(p', nextFree, free)
  {
  }

  lemma FreePop(p: seq<Node>, nextFree: int, free: seq<nat>)
    requires FreeChain(p, nextFree, free) && free != []
    ensures 0 <= nextFree < |p|
    ensures FreeChain(p, p[nextFree].next, free[1..])
  {
  }

  lemma FreePush(p: seq<Node>, nextFree: int, free: seq<nat>, h: nat)
    requires FreeChain(p, nextFree, free) && h < |p|
    requires forall k :: 0 <= k < |free| ==> free[k] != h
    ensures FreeChain(LinkNext(p, h, nextFree), h, [h] + free)
  {
  }

  // ----- A whole side -----

  ghost predicate ChainsOk(pool: seq<Node>, levels: seq<PriceLevel>, isBid: bool, queues: seq<seq<Order>>) {
    && |levels| == |queues| == NUM_LEVELS
    && |pool| == MAX_ORDERS
    && forall r :: 0 <= r < NUM_LEVELS ==>
         && Chain(pool, levels[Mirror(isBid, r)].first, levels[Mirror(isBid, r)].last, queues[r])
         && Stored(pool, queues[r])
  }

  ghost predicate LevelsOk(levels: seq<PriceLevel>, isBid: bool, queues: seq<seq<Order>>) {
    && |levels| == |queues| == NUM_LEVELS
    && forall r :: 0 <= r < NUM_LEVELS ==>
         && levels[Mirror(isBid, r)].total == Total(queues[r])
         && levels[Mirror(isBid, r)].price == PriceOf(isBid, r)
         && levels[Mirror(isBid, r)].idx == Mirror(isBid, r)
  }

  ghost predicate HandlesFixed(pool: seq<Node>) {
    forall h :: 0 <= h < |pool| ==> pool[h].order.handle == h
  }

  /** The memory image holds the model side. */
  ghost predicate Represents(pool: seq<Node>, nextFree: int, levels: seq<PriceLevel>, s: Side) {
    && ChainsOk(pool, levels, s.isBid, s.queues)
    && LevelsOk(levels, s.isBid, s.queues)
    && FreeChain(pool, nextFree, s.free)
    && HandlesFixed(pool)
  }

  lemma QueueFacts(s: Side, r: nat)
    requires Slots(s) && r < NUM_LEVELS
    ensures Distinct(s.queues[r])
    ensures forall k :: 0 <= k < |s.queues[r]| ==> s.queues[r][k].handle in s.home && s.home[s.queues[r][k].handle] == r
  {
  }

  // ----- Appending an order in the first free slot -----

  /** p' is p with the first free slot filled with o and linked behind `last`. */
  ghost predicate Appended(p: seq<Node>, p': seq<Node>, last: int, o: Order) {
    && |p'| == |p|
    && o.handle < |p|
    && p'[o.handle] == Node(NULL, last, o)
    && (forall h :: 0 <= h < |p| && h != o.handle && h != last ==> p'[h] == p[h])
    && (0 <= last < |p| && last != o.handle ==> p'[last] == p[last].(next := o.handle))
  }

  lemma AppendChain(p: seq<Node>, p': seq<Node>, first: int, last: int, q: seq<Order>, o: Order)
    requires Chain(p, first, last, q) && Stored(p, q) && Distinct(q) && Appended(p, p', last, o)
    requires forall k :: 0 <= k < |q| ==> q[k].handle != o.handle
    ensures Chain(p', if last == NULL then o.handle else first, o.handle, q + [o])
    ensures Stored(p', q + [o])
  {
    ChainAppend(p, p', first, last, q, o);
  }

  ghost predicate OthersKept(levels: seq<PriceLevel>, levels': seq<PriceLevel>, l: int) {
    && |levels'| == |levels|
    && forall i :: 0 <= i < |levels| && i != l ==> levels'[i] == levels[i]
  }

  /** Writes to slots that are not in rank i's queue leave that queue as it was. */
  lemma OtherLevel(p: seq<Node>, p': seq<Node>, levels: seq<PriceLevel>, s: Side, i: nat)
    requires Slots(s) && i < NUM_LEVELS && ChainsOk(p, levels, s.isBid, s.queues) && |p'| == |p|
    requires forall h :: h in s.home && s.home[h] == i && h < |p| ==> p'[h] == p[h]
    ensures var l := Mirror(s.isBid, i);
            Chain(p', levels[l].first, levels[l].last, s.queues[i]) && Stored(p', s.queues[i])
  {
  }

  lemma EndsHome(p: seq<Node>, levels: seq<PriceLevel>, s: Side, r: nat)
    requires Slots(s) && r < NUM_LEVELS && ChainsOk(p, levels, s.isBid, s.queues)
    ensures var l := levels[Mirror(s.isBid, r)];
            && (l.last == NULL || (0 <= l.last < MAX_ORDERS && l.last in s.home && s.home[l.last] == r))
            && (l.first == NULL || (0 <= l.first < MAX_ORDERS && l.first in s.home && s.home[l.first] == r))
  {
  }

  /** What an insertion needs to know about the memory. */
  lemma ReadyToAdd(p: seq<Node>, nextFree: int, levels: seq<PriceLevel>, s: Side, r: nat)
    requires SideOk(s) && Represents(p, nextFree, levels, s) && r < NUM_LEVELS
    ensures Slots(s) && s.best <= NUM_LEVELS && FreeChain(p, nextFree, s.free)
    ensures var last := levels[Mirror(s.isBid, r)].last;
            last != NULL ==> 0 <= last < MAX_ORDERS && (s.free != [] ==> last != s.free[0])
  {
    EndsHome(p, levels, s, r);
  }

  lemma AppendChains(p: seq<Node>, p': seq<Node>, levels: seq<PriceLevel>, levels': seq<PriceLevel>, s: Side, r: nat,
                     o: Order)
    requires Slots(s) && r < NUM_LEVELS && s.free != [] && o.handle == s.free[0]
    requires ChainsOk(p, levels, s.isBid, s.queues)
    requires var l := Mirror(s.isBid, r);
             && Appended(p, p', levels[l].last, o)
             && OthersKept(levels, levels', l)
             && levels'[l].first == (if levels[l].last == NULL then o.handle else levels[l].first)
             && levels'[l].last == o.handle
    ensures ChainsOk(p', levels', s.isBid, PushBack(s, r, o).queues)
  {
    hide QueuesOk, HomeOk, Chain, Stored, QueueOk;
    var l := Mirror(s.isBid, r);
    QueueFacts(s, r);
    EndsHome(p, levels, s, r);
    AppendChain(p, p', levels[l].first, levels[l].last, s.queues[r], o);
    forall i | 0 <= i < NUM_LEVELS && i != r
      ensures var li := Mirror(s.isBid, i);
              Chain(p', levels[li].first, levels[li].last, s.queues[i]) && Stored(p', s.queues[i])
    {
      OtherLevel(p, p', levels, s, i);
    }
  }

  lemma AppendFree(p: seq<Node>, p': seq<Node>, nextFree: int, last: int, s: Side, o: Order)
    requires Slots(s) && s.free != [] && o.handle == s.free[0] && FreeChain(p, nextFree, s.free)
    requires Appended(p, p', last, o)
    requires last == NULL || last in s.home
    ensures 0 <= nextFree < |p|
    ensures FreeChain(p', p[nextFree].next, s.free[1..])
  {
    FreePop(p, nextFree, s.free);
    FreeFrame(p, p', p[nextFree].next, s.free[1..]);
  }

  // ----- Removing an order -----

  /** p' is p with slot h bypassed by its neighbours and pushed on the free list. */
  ghost predicate Released(p: seq<Node>, p': seq<Node>, h: nat, nextFree: int) {
    && |p'| == |p|
    && h < |p|
    && p'[h].next == nextFree
    && p'[h].order.handle == h
    && forall x :: 0 <= x < |p| && x != h ==> p'[x] == Unlinked(p, h)[x]
  }

  lemma ReleaseChain(p: seq<Node>, p': seq<Node>, first: int, last: int, q: seq<Order>, k: nat, nextFree: int)
    requires Chain(p, first, last, q) && Stored(p, q) && Distinct(q) && k < |q|
    requires Released(p, p', q[k].handle, nextFree)
    ensures var h := q[k].handle;
            && Chain(p', if p[h].previous == NULL then p[h].next else first,
                     if p[h].next == NULL then p[h].previous else last, Without(q, k))
            && Stored(p', Without(q, k))
  {
    var h := q[k].handle;
    var q' := Without(q, k);
    ChainRemove(p, first, last, q, k);
    forall j | 0 <= j < |q'| ensures q'[j].handle != h && q'[j] in q {
      assert q'[j] == q[if j >= k then j + 1 else j];
    }
    ChainFrame(Unlinked(p, h), p', if p[h].previous == NULL then p[h].next else first,
               if p[h].next == NULL then p[h].previous else last, q');
  }

  /** The neighbours of a queued slot are queued on the same level. */
  lemma NeighboursHome(p: seq<Node>, levels: seq<PriceLevel>, s: Side, r: nat, k: nat)
    requires Slots(s) && r < NUM_LEVELS && k < |s.queues[r]| && ChainsOk(p, levels, s.isBid, s.queues)
    ensures s.queues[r][k].handle < |p|
    ensures s.queues[r][k].handle in s.home && s.home[s.queues[r][k].handle] == r
    ensures var n := p[s.queues[r][k].handle];
            && n.next != s.queues[r][k].handle && n.previous != s.queues[r][k].handle
            && (n.next == NULL || (0 <= n.next < MAX_ORDERS && n.next in s.home && s.home[n.next] == r))
            && (n.previous == NULL || (0 <= n.previous < MAX_ORDERS && n.previous in s.home && s.home[n.previous] == r))
  {
    QueueFacts(s, r);
    var q := s.queues[r];
    var l := levels[Mirror(s.isBid, r)];
    assert Chain(p, l.first, l.last, q);
    if k + 1 < |q| {
      assert p[q[k].handle].next == q[k + 1].handle;
    }
    if 0 < k {
      assert p[q[k].handle].previous == q[k - 1].handle;
    }
  }

  lemma ReleaseChains(p: seq<Node>, p': seq<Node>, levels: seq<PriceLevel>, levels': seq<PriceLevel>, s: Side, r: nat,
                      k: nat, nextFree: int)
    requires Slots(s) && r < NUM_LEVELS && k < |s.queues[r]|
    requires ChainsOk(p, levels, s.isBid, s.queues)
    requires Released(p, p', s.queues[r][k].handle, nextFree)
    requires var l := Mirror(s.isBid, r);
             var n := p[s.queues[r][k].handle];
             && OthersKept(levels, levels', l)
             && levels'[l].first == (if n.previous == NULL then n.next else levels[l].first)
             && levels'[l].last == (if n.next == NULL then n.previous else levels[l].last)
    ensures ChainsOk(p', levels', s.isBid, RemoveAt(s, r, k).queues)
  {
    hide QueuesOk, HomeOk, FreeOk, Chain, Stored, QueueOk;
    var l := Mirror(s.isBid, r);
    QueueFacts(s, r);
    NeighboursHome(p, levels, s, r, k);
    ReleaseChain(p, p', levels[l].first, levels[l].last, s.queues[r], k, nextFree);
    forall i | 0 <= i < NUM_LEVELS && i != r
      ensures var li := Mirror(s.isBid, i);
              Chain(p', levels[li].first, levels[li].last, s.queues[i]) && Stored(p', s.queues[i])
    {
      OtherLevel(p, p', levels, s, i);
    }
  }

  lemma ReleaseFree(p: seq<Node>, p': seq<Node>, levels: seq<PriceLevel>, nextFree: int, s: Side, r: nat, k: nat)
    requires Slots(s) && r < NUM_LEVELS && k < |s.queues[r]|
    requires ChainsOk(p, levels, s.isBid, s.queues)
    requires FreeChain(p, nextFree, s.free) && Released(p, p', s.queues[r][k].handle, nextFree)
    ensures FreeChain(p', s.queues[r][k].handle, [s.queues[r][k].handle] + s.free)
  {
    hide QueuesOk, HomeOk, Chain, Stored, QueueOk;
    var h := s.queues[r][k].handle;
    NeighboursHome(p, levels, s, r, k);
    FreePush(p, nextFree, s.free, h);
    FreeFrame(LinkNext(p, h, nextFree), p', h, [h] + s.free);
  }

  // ----- Rewriting an order in place -----

  lemma RewriteChains(p: seq<Node>, levels: seq<PriceLevel>, levels': seq<PriceLevel>, s: Side, r: nat, k: nat,
                      o: Order)
    requires Slots(s) && r < NUM_LEVELS && k < |s.queues[r]| && o.handle == s.queues[r][k].handle
    requires ChainsOk(p, levels, s.isBid, s.queues)
    requires |levels'| == |levels|
    requires forall i :: 0 <= i < NUM_LEVELS ==>
               levels'[i].first == levels[i].first && levels'[i].last == levels[i].last
    ensures o.handle < |p|
    ensures ChainsOk(p[o.handle := p[o.handle].(order := o)], levels', s.isBid, UpdateAt(s, r, k, o).queues)
  {
    hide QueuesOk, HomeOk, FreeOk, Chain, QueueOk;
    QueueFacts(s, r);
    assert Stored(p, s.queues[r]);
    var l := Mirror(s.isBid, r);
    var p' := p[o.handle := p[o.handle].(order := o)];
    ChainRename(p, p', levels[l].first, levels[l].last, s.queues[r], s.queues[r][k := o]);
    forall i | 0 <= i < NUM_LEVELS && i != r
      ensures var li := Mirror(s.isBid, i);
              Chain(p', levels[li].first, levels[li].last, s.queues[i]) && Stored(p', s.queues[i])
    {
      OtherLevel(p, p', levels, s, i);
    }
  }

  lemma ChainRename(p: seq<Node>, p': seq<Node>, first: int, last: int, q: seq<Order>, q': seq<Order>)
    requires Chain(p, first, last, q) && SameLinks(p, p', q)
    requires |q| == |q'| && forall k :: 0 <= k < |q| ==> q'[k].handle == q[k].handle
    ensures Chain(p', first, last, q')
  {
  }

  // ----- Level totals -----

  /** Changing one queue and its level's total accordingly keeps all totals right. */
  lemma TotalsChange(levels: seq<PriceLevel>, levels': seq<PriceLevel>, isBid: bool, queues: seq<seq<Order>>, r: nat,
                     q: seq<Order>, delta: int)
    requires LevelsOk(levels, isBid, queues) && r < NUM_LEVELS
    requires SumRemaining(q) == SumRemaining(queues[r]) + delta
    requires var l := Mirror(isBid, r);
             && OthersKept(levels, levels', l)
             && levels'[l].total == Wrap(levels[l].total + delta)
             && levels'[l].price == levels[l].price && levels'[l].idx == levels[l].idx
    ensures LevelsOk(levels', isBid, queues[r := q])
  {
    ModAdd(SumRemaining(queues[r]), delta);
  }

  lemma ModAdd(a: int, d: int)
    ensures Wrap(Wrap(a) + d) == Wrap(a + d)
  {
  }

  // ----- The three updates of a side's memory -----

  /** Appending an order to a level. */
  lemma RepresentsAdd(p: seq<Node>, p': seq<Node>, nextFree: int, levels: seq<PriceLevel>, s: Side, r: nat, o: Order)
    requires Slots(s) && Represents(p, nextFree, levels, s)
    requires r < NUM_LEVELS && s.free != [] && o.handle == s.free[0]
    requires Appended(p, p', levels[Mirror(s.isBid, r)].last, o)
    ensures 0 <= nextFree < |p|
    ensures var l := Mirror(s.isBid, r);
            var was := levels[l];
            var level := was.(first := if was.last == NULL then o.handle else was.first,
                              last := o.handle, total := Wrap(was.total + o.remaining));
            Represents(p', p[nextFree].next, levels[l := level], Added(s, r, o))
  {
    hide QueuesOk, HomeOk, FreeOk, QueueOk, Chain, Stored;
    var l := Mirror(s.isBid, r);
    var was := levels[l];
    var levels' := levels[l := was.(first := if was.last == NULL then o.handle else was.first,
                                    last := o.handle, total := Wrap(was.total + o.remaining))];
    EndsHome(p, levels, s, r);
    AppendChains(p, p', levels, levels', s, r, o);
    AppendFree(p, p', nextFree, was.last, s, o);
    SumRemainingConcat(s.queues[r], [o]);
    assert SumRemaining([o]) == o.remaining + SumRemaining([]);
    TotalsChange(levels, levels', s.isBid, s.queues, r, s.queues[r] + [o], o.remaining);
    assert Added(s, r, o).queues == PushBack(s, r, o).queues && Added(s, r, o).free == PushBack(s, r, o).free;
  }

  /** Taking an order out of a level and giving its slot back. */
  lemma RepresentsRemove(p: seq<Node>, p': seq<Node>, nextFree: int, levels: seq<PriceLevel>, s: Side, r: nat, k: nat)
    requires Slots(s) && Represents(p, nextFree, levels, s)
    requires r < NUM_LEVELS && k < |s.queues[r]|
    requires Released(p, p', s.queues[r][k].handle, nextFree)
    ensures var l := Mirror(s.isBid, r);
            var was := levels[l];
            var o := s.queues[r][k];
            var n := p[o.handle];
            var level := was.(first := if n.previous == NULL then n.next else was.first,
                              last := if n.next == NULL then n.previous else was.last,
                              total := Wrap(was.total - o.remaining));
            Represents(p', o.handle, levels[l := level], RemoveAt(s, r, k))
  {
    hide QueuesOk, HomeOk, FreeOk, QueueOk, Chain, Stored;
    var l := Mirror(s.isBid, r);
    var was := levels[l];
    var o := s.queues[r][k];
    var n := p[o.handle];
    var levels' := levels[l := was.(first := if n.previous == NULL then n.next else was.first,
                                    last := if n.next == NULL then n.previous else was.last,
                                    total := Wrap(was.total - o.remaining))];
    ReleaseChains(p, p', levels, levels', s, r, k, nextFree);
    ReleaseFree(p, p', levels, nextFree, s, r, k);
    SumRemainingRemove(s.queues[r], k);
    TotalsChange(levels, levels', s.isBid, s.queues, r, Without(s.queues[r], k), 0 - o.remaining);
  }

  /** Rewriting an order in place. */
  lemma RepresentsUpdate(p: seq<Node>, nextFree: int, levels: seq<PriceLevel>, s: Side, r: nat, k: nat, o: Order)
    requires Slots(s) && Represents(p, nextFree, levels, s)
    requires r < NUM_LEVELS && k < |s.queues[r]| && o.handle == s.queues[r][k].handle
    ensures o.handle < |p|
    ensures var l := Mirror(s.isBid, r);
            var was := levels[l];
            var level := was.(total := Wrap(was.total + (o.remaining - s.queues[r][k].remaining)));
            Represents(p[o.handle := p[o.handle].(order := o)], nextFree, levels[l := level], UpdateAt(s, r, k, o))
  {
    hide QueuesOk, HomeOk, FreeOk, QueueOk, Chain, Stored;
    var l := Mirror(s.isBid, r);
    var was := levels[l];
    var delta := o.remaining - s.queues[r][k].remaining;
    var levels' := levels[l := was.(total := Wrap(was.total + delta))];
    RewriteChains(p, levels, levels', s, r, k, o);
    FreeFrame(p, p[o.handle := p[o.handle].(order := o)], nextFree, s.free);
    SumRemainingUpdate(s.queues[r], k, o);
    TotalsChange(levels, levels', s.isBid, s.queues, r, s.queues[r][k := o], delta);
  }

  /** What the memory shows of the order at r, k. */
  lemma Shown(p: seq<Node>, nextFree: int, levels: seq<PriceLevel>, s: Side, r: nat, k: nat)
    requires Slots(s) && Represents(p, nextFree, levels, s)
    requires r < NUM_LEVELS && k < |s.queues[r]|
    ensures s.queues[r][k].handle < |p| == MAX_ORDERS && p[s.queues[r][k].handle].order == s.queues[r][k]
    ensures p[s.queues[r][k].handle].previous == NULL <==> k == 0
    ensures p[s.queues[r][k].handle].next == NULL <==> k == |s.queues[r]| - 1
    ensures k == 0 ==> levels[Mirror(s.isBid, r)].first == s.queues[r][k].handle
    ensures OrderOk(s.isBid, s.home, r, s.queues[r][k])
  {
    var q := s.queues[r];
    var l := levels[Mirror(s.isBid, r)];
    PlaceOk(s, r, k);
    assert Chain(p, l.first, l.last, q) && Stored(p, q);
    if k + 1 < |q| {
      assert p[q[k].handle].next == q[k + 1].handle;
    }
    if 0 < k {
      assert p[q[k].handle].previous == q[k - 1].handle;
    }
  }

  /** What the memory shows of a level. */
  lemma ShownLevel(p: seq<Node>, nextFree: int, levels: seq<PriceLevel>, s: Side, r: nat)
    requires Slots(s) && Represents(p, nextFree, levels, s) && r < NUM_LEVELS
    ensures var l := levels[Mirror(s.isBid, r)];
            && l.total == Total(s.queues[r])
            && l.price == PriceOf(s.isBid, r)
            && l.idx == Mirror(s.isBid, r)
            && (l.first == NULL <==> s.queues[r] == [])
  {
  }
}
