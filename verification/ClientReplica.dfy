/** A trading client's replica of its own open orders, driven by the messages the exchange sends it. */
module ClientReplica {
  import opened Types
  import opened Matching
  import opened BookModel
  import opened IdIndex

  datatype OpenOrder = OpenOrder(price: int, quantity: int, remaining: int, cumulative: int, isBid: bool)

  datatype Message =
    | ConfirmInserted(id: u32, isBid: bool, price: int, total: u32, leaves: u32)
    | PartialFill(id: u32, leaves: u32, cumulative: u32)
    | ConfirmCancelled(id: u32)
    | ConfirmAmended(id: u32, newTotal: u32, leaves: u32)

  /** The messages one callback sends to one client; a trade goes to the maker, then to the taker. */
  function MessagesTo(client: u32, e: Event): seq<Message> {
    match e
    case Trade(maker, takerClient, takerId, _, takerTotal, takerCumulative, _) =>
      (if maker.clientId == client then [PartialFill(maker.orderId, maker.remaining, maker.cumulative)] else [])
      + (if takerClient == client then [PartialFill(takerId, Wrap(takerTotal - takerCumulative), takerCumulative)]
         else [])
    case Inserted(_, o) =>
      if o.clientId == client then [ConfirmInserted(o.orderId, o.isBid, o.price, o.quantity, o.remaining)] else []
    case Cancelled(_, o) => if o.clientId == client then [ConfirmCancelled(o.orderId)] else []
    case Amended(_, _, o) => if o.clientId == client then [ConfirmAmended(o.orderId, o.quantity, o.remaining)] else []
    case _ => []
  }

  /** The client's open orders; `alive` is false once a handler failed and the receive loop ended. */
  datatype Client = Client(open: map<u32, OpenOrder>, alive: bool)

  function Receive(c: Client, m: Message): Client {
    if !c.alive then c else
    match m
    case ConfirmInserted(id, isBid, price, total, leaves) =>
      c.(open := c.open[id := OpenOrder(price, total, leaves, total - leaves, isBid)])
    case PartialFill(id, leaves, cumulative) =>
      if id !in c.open then c
      else if leaves == 0 then c.(open := c.open - {id})
      else c.(open := c.open[id := c.open[id].(remaining := leaves, cumulative := cumulative)])
    case ConfirmCancelled(id) => c.(open := c.open - {id})
    case ConfirmAmended(id, newTotal, leaves) =>
      if id !in c.open then c.(alive := false)
      else c.(open := c.open[id := c.open[id].(quantity := newTotal, remaining := leaves)])
  }

  function ReceiveAll(c: Client, ms: seq<Message>): Client
    decreases |ms|
  {
    if ms == [] then c else ReceiveAll(Receive(c, ms[0]), ms[1..])
  }

  /** The client after every message that a list of callbacks sends it. */
  function Hear(client: u32, c: Client, events: seq<Event>): Client
    decreases |events|
  {
    if events == [] then c else Hear(client, ReceiveAll(c, MessagesTo(client, events[0])), events[1..])
  }

  lemma {:induction false} HearConcat(client: u32, c: Client, a: seq<Event>, b: seq<Event>)
    ensures Hear(client, c, a + b) == Hear(client, Hear(client, c, a), b)
    decreases |a|
  {
    if a == [] {
      assert a + b == b;
    } else {
      assert (a + b)[1..] == a[1..] + b;
      HearConcat(client, ReceiveAll(c, MessagesTo(client, a[0])), a[1..], b);
    }
  }

  // ----- What the replica should hold -----

  function ViewOf(o: Order): OpenOrder {
    OpenOrder(o.price, o.quantity, o.remaining, o.cumulative, o.isBid)
  }

  /** Own resting orders are held as they are; other clients' orders are not held. */
  predicate TracksOrder(client: u32, open: map<u32, OpenOrder>, o: Order) {
    if o.clientId == client then o.orderId in open && open[o.orderId] == ViewOf(o) else o.orderId !in open
  }

  predicate TracksQueue(client: u32, open: map<u32, OpenOrder>, q: seq<Order>) {
    forall k :: 0 <= k < |q| ==> TracksOrder(client, open, q[k])
  }

  predicate TracksSide(client: u32, open: map<u32, OpenOrder>, queues: seq<seq<Order>>) {
    forall r :: 0 <= r < |queues| ==> TracksQueue(client, open, queues[r])
  }

  /** An entry belongs to a mapped id, or is an order that was amended down to its filled amount. */
  predicate Entry(o: OpenOrder, mapped: bool) {
    mapped || (o.remaining == 0 && o.quantity == o.cumulative)
  }

  predicate Entries(open: map<u32, OpenOrder>, ids: map<u32, nat>, n: nat) {
    forall id :: id in open ==> id < n && Entry(open[id], id in ids)
  }

  /** The state of one side s, its opposite t and the id map that a replica follows. */
  predicate Tracks(client: u32, c: Client, s: Side, t: Side, ids: map<u32, nat>, n: nat) {
    && c.alive
    && TracksSide(client, c.open, s.queues)
    && TracksSide(client, c.open, t.queues)
    && Entries(c.open, ids, n)
  }

  // ----- Changing one entry -----

  /** The entry of one id changes; queues without that id are tracked as before. */
  predicate Elsewhere(open: map<u32, OpenOrder>, open': map<u32, OpenOrder>, id: u32) {
    open' - {id} == open - {id}
  }

  lemma QueueElsewhere(client: u32, open: map<u32, OpenOrder>, open': map<u32, OpenOrder>, id: u32, q: seq<Order>)
    requires TracksQueue(client, open, q) && Elsewhere(open, open', id)
    requires forall k :: 0 <= k < |q| ==> q[k].orderId != id
    ensures TracksQueue(client, open', q)
  {
    forall k | 0 <= k < |q| ensures TracksOrder(client, open', q[k]) {
      var x := q[k].orderId;
      assert TracksOrder(client, open, q[k]);
      assert x in open' <==> x in open' - {id};
      assert x in open <==> x in open - {id};
      if x in open {
        assert open'[x] == (open' - {id})[x] == (open - {id})[x];
      }
    }
  }

  lemma OtherSideElsewhere(client: u32, open: map<u32, OpenOrder>, open': map<u32, OpenOrder>, t: Side,
                           ids: map<u32, nat>, n: nat, o: Order)
    requires TracksSide(client, open, t.queues) && Elsewhere(open, open', o.orderId)
    requires SideIndexed(t, ids, n) && o.orderId in ids && ids[o.orderId] == Encode(o.handle, !t.isBid)
    ensures TracksSide(client, open', t.queues)
  {
    hide Elsewhere, TracksQueue;
    forall r | 0 <= r < |t.queues| ensures TracksQueue(client, open', t.queues[r]) {
      assert QueueIndexed(t.isBid, ids, n, t.queues[r]);
      QueueElsewhere(client, open, open', o.orderId, t.queues[r]);
    }
  }

  lemma SameSideElsewhere(client: u32, open: map<u32, OpenOrder>, open': map<u32, OpenOrder>, s: Side,
                          ids: map<u32, nat>, n: nat, r: nat, k: nat, i: nat)
    requires Slots(s) && SideIndexed(s, ids, n) && TracksSide(client, open, s.queues)
    requires r < NUM_LEVELS && k < |s.queues[r]| && i < NUM_LEVELS && i != r
    requires Elsewhere(open, open', s.queues[r][k].orderId)
    ensures TracksQueue(client, open', s.queues[i])
  {
    hide Elsewhere, TracksQueue;
    var id := s.queues[r][k].orderId;
    assert QueueIndexed(s.isBid, ids, n, s.queues[i]) && QueueIndexed(s.isBid, ids, n, s.queues[r]);
    forall j | 0 <= j < |s.queues[i]| ensures s.queues[i][j].orderId != id {
      OtherHandle(s, i, j, r, k);
    }
    QueueElsewhere(client, open, open', id, s.queues[i]);
  }

  lemma EntriesDrop(open: map<u32, OpenOrder>, open': map<u32, OpenOrder>, ids: map<u32, nat>, n: nat, id: u32)
    requires Entries(open, ids, n) && Elsewhere(open, open', id)
    requires id in open' ==> id < n && Entry(open'[id], false)
    ensures Entries(open', ids - {id}, n)
  {
    forall x | x in open' ensures x < n && Entry(open'[x], x in ids - {id}) {
      if x != id {
        assert x in open' - {id} && x in open && open[x] == (open - {id})[x] == (open' - {id})[x];
      }
    }
  }

  lemma EntriesKeep(open: map<u32, OpenOrder>, open': map<u32, OpenOrder>, ids: map<u32, nat>, n: nat, id: u32)
    requires Entries(open, ids, n) && Elsewhere(open, open', id) && id in ids && id < n
    ensures Entries(open', ids, n)
  {
    forall x | x in open' ensures x < n && Entry(open'[x], x in ids) {
      if x != id {
        assert x in open' - {id} && x in open && open[x] == (open - {id})[x] == (open' - {id})[x];
      }
    }
  }

  /** An order leaves the book, and with it its entry or all but a finished entry. */
  lemma RemoveTracked(client: u32, c: Client, open': map<u32, OpenOrder>, s: Side, t: Side, ids: map<u32, nat>,
                      n: nat, r: nat, k: nat)
    requires Tracks(client, c, s, t, ids, n) && Slots(s) && t.isBid != s.isBid
    requires SideIndexed(s, ids, n) && SideIndexed(t, ids, n) && r < NUM_LEVELS && k < |s.queues[r]|
    requires var o := s.queues[r][k];
             Elsewhere(c.open, open', o.orderId) && (o.orderId in open' ==> Entry(open'[o.orderId], false))
    ensures Tracks(client, Client(open', true), RemoveAt(s, r, k), t, ids - {s.queues[r][k].orderId}, n)
  {
    hide QueuesOk, HomeOk, FreeOk, Elsewhere, TracksQueue, Entries;
    SlotsLength(s);
    var o := s.queues[r][k];
    assert QueueIndexed(s.isBid, ids, n, s.queues[r]);
    OtherSideElsewhere(client, c.open, open', t, ids, n, o);
    EntriesDrop(c.open, open', ids, n, o.orderId);
    WithoutTracked(client, c.open, open', s.isBid, ids, n, s.queues[r], k);
    var s' := RemoveAt(s, r, k);
    forall i | 0 <= i < |s'.queues| && i != r ensures TracksQueue(client, open', s'.queues[i]) {
      SameSideElsewhere(client, c.open, open', s, ids, n, r, k, i);
    }
  }

  lemma WithoutTracked(client: u32, open: map<u32, OpenOrder>, open': map<u32, OpenOrder>, isBid: bool,
                       ids: map<u32, nat>, n: nat, q: seq<Order>, k: nat)
    requires QueueIndexed(isBid, ids, n, q) && k < |q| && TracksQueue(client, open, q)
             && Elsewhere(open, open', q[k].orderId)
    ensures TracksQueue(client, open', Without(q, k))
  {
    var q' := Without(q, k);
    forall j | 0 <= j < |q'| ensures TracksOrder(client, open, q'[j]) && q'[j].orderId != q[k].orderId {
      assert q'[j] == q[if j >= k then j + 1 else j];
    }
    QueueElsewhere(client, open, open', q[k].orderId, q');
  }

  /** An order changes in place, and its entry with it. */
  lemma UpdateTracked(client: u32, c: Client, open': map<u32, OpenOrder>, s: Side, t: Side, ids: map<u32, nat>,
                      n: nat, r: nat, k: nat, o: Order)
    requires Tracks(client, c, s, t, ids, n) && Slots(s) && t.isBid != s.isBid
    requires SideIndexed(s, ids, n) && SideIndexed(t, ids, n) && r < NUM_LEVELS && k < |s.queues[r]|
    requires o.orderId == s.queues[r][k].orderId && Elsewhere(c.open, open', o.orderId) && TracksOrder(client, open', o)
    ensures Tracks(client, Client(open', true), UpdateAt(s, r, k, o), t, ids, n)
  {
    hide QueuesOk, HomeOk, FreeOk, Elsewhere, TracksQueue, Entries, TracksOrder;
    SlotsLength(s);
    assert QueueIndexed(s.isBid, ids, n, s.queues[r]);
    OtherSideElsewhere(client, c.open, open', t, ids, n, s.queues[r][k]);
    EntriesKeep(c.open, open', ids, n, o.orderId);
    SetTracked(client, c.open, open', s.isBid, ids, n, s.queues[r], k, o);
    var s' := UpdateAt(s, r, k, o);
    forall i | 0 <= i < |s'.queues| && i != r ensures TracksQueue(client, open', s'.queues[i]) {
      SameSideElsewhere(client, c.open, open', s, ids, n, r, k, i);
    }
  }

  lemma SetTracked(client: u32, open: map<u32, OpenOrder>, open': map<u32, OpenOrder>, isBid: bool,
                   ids: map<u32, nat>, n: nat, q: seq<Order>, k: nat, o: Order)
    requires QueueIndexed(isBid, ids, n, q) && k < |q| && TracksQueue(client, open, q)
             && Elsewhere(open, open', q[k].orderId)
    requires TracksOrder(client, open', o)
    ensures TracksQueue(client, open', q[k := o])
  {
    WithoutTracked(client, open, open', isBid, ids, n, q, k);
    var q' := Without(q, k);
    forall j | 0 <= j < |q| && j != k ensures TracksOrder(client, open', q[j]) {
      assert q[j] == q'[if j > k then j - 1 else j];
    }
  }

  // ----- Matching -----

  lemma OneMessage(c: Client, m: Message)
    ensures ReceiveAll(c, [m]) == Receive(c, m)
  {
  }

  lemma {:induction false} ReceiveConcat(c: Client, a: seq<Message>, b: seq<Message>)
    ensures ReceiveAll(c, a + b) == ReceiveAll(ReceiveAll(c, a), b)
    decreases |a|
  {
    if a == [] {
      assert a + b == b;
    } else {
      assert (a + b)[1..] == a[1..] + b;
      ReceiveConcat(Receive(c, a[0]), a[1..], b);
    }
  }

  /** What a trade does to a replica: only the maker's entry can change. The taker's fill carries
      an id that is not open yet. */
  function AfterFill(client: u32, open: map<u32, OpenOrder>, maker: Order): map<u32, OpenOrder> {
    if maker.clientId != client || maker.orderId !in open then open
    else if maker.remaining == 0 then open - {maker.orderId}
    else open[maker.orderId := open[maker.orderId].(remaining := maker.remaining, cumulative := maker.cumulative)]
  }

  lemma TradeHeard(client: u32, c: Client, e: Event)
    requires e.Trade? && c.alive && e.takerId !in c.open
    ensures ReceiveAll(c, MessagesTo(client, e)) == c.(open := AfterFill(client, c.open, e.maker))
  {
    var toMaker := PartialFill(e.maker.orderId, e.maker.remaining, e.maker.cumulative);
    var toTaker := PartialFill(e.takerId, Wrap(e.takerTotal - e.takerCumulative), e.takerCumulative);
    var c1 := c.(open := AfterFill(client, c.open, e.maker));
    OneMessage(c, toMaker);
    OneMessage(c, toTaker);
    OneMessage(c1, toTaker);
    ReceiveConcat(c, [toMaker], [toTaker]);
    ReceiveConcat(c, [], [toTaker]);
    ReceiveConcat(c, [toMaker], []);
  }

  lemma FillElsewhere(client: u32, open: map<u32, OpenOrder>, maker: Order)
    ensures Elsewhere(open, AfterFill(client, open, maker), maker.orderId)
  {
  }

  lemma HearTrade(client: u32, c: Client, e: Event, rest: seq<Event>)
    requires e.Trade? && c.alive && e.takerId !in c.open
    requires rest == [] || (|rest| == 1 && rest[0].LevelUpdate?)
    ensures Hear(client, c, [e] + rest) == c.(open := AfterFill(client, c.open, e.maker))
  {
    TradeHeard(client, c, e);
    assert ([e] + rest)[1..] == rest;
    if rest != [] {
      assert rest[1..] == [];
    }
  }

  lemma MatchOneHeard(client: u32, c: Client, s: Side, t: Side, ids: map<u32, nat>, n: nat, taker: Taker, qty: nat)
    requires SideOk(s) && s.best < NUM_LEVELS && 0 < qty <= taker.total && taker.id == n && t.isBid != s.isBid
    requires SideIndexed(s, ids, n) && SideIndexed(t, ids, n) && Tracks(client, c, s, t, ids, n)
    ensures var m := MatchOne(s, ids, taker, qty);
            Tracks(client, Hear(client, c, m.events), m.side, t, m.ids, n)
  {
    hide QueuesOk, HomeOk, FreeOk, MatchOne, ScanFrom, Elsewhere, TracksQueue, SideIndexed, Hear;
    var r := s.best;
    PlaceOk(s, r, 0);
    var o := s.queues[r][0];
    var m := MatchOne(s, ids, taker, qty);
    FrontTracked(client, c, s, t, ids, n, r);
    if o.remaining <= qty {
      MatchOneWhole(s, ids, taker, qty);
      FillElsewhere(client, c.open, Traded(o, o.remaining));
      HearTrade(client, c, m.events[0], m.events[1..]);
      assert m.events == [m.events[0]] + m.events[1..];
      RemoveTracked(client, c, AfterFill(client, c.open, Traded(o, o.remaining)), s, t, ids, n, r, 0);
    } else {
      MatchOnePart(s, ids, taker, qty);
      FillElsewhere(client, c.open, Traded(o, qty));
      HearTrade(client, c, m.events[0], m.events[1..]);
      assert m.events == [m.events[0]] + m.events[1..];
      UpdateTracked(client, c, AfterFill(client, c.open, Traded(o, qty)), s, t, ids, n, r, 0, Traded(o, qty));
    }
  }

  lemma FrontTracked(client: u32, c: Client, s: Side, t: Side, ids: map<u32, nat>, n: nat, r: nat)
    requires Tracks(client, c, s, t, ids, n) && r < |s.queues| && s.queues[r] != []
    ensures TracksOrder(client, c.open, s.queues[r][0])
    ensures forall id :: id in c.open ==> id < n
  {
  }

  lemma {:induction false} MatchHeard(client: u32, c: Client, s: Side, t: Side, ids: map<u32, nat>, n: nat,
                                      limit: int, taker: Taker, qty: nat)
    requires SideOk(s) && qty <= taker.total && taker.id == n && t.isBid != s.isBid
    requires SideIndexed(s, ids, n) && SideIndexed(t, ids, n) && Tracks(client, c, s, t, ids, n)
    ensures var m := MatchSide(s, ids, limit, taker, qty);
            Tracks(client, Hear(client, c, m.events), m.side, t, m.ids, n)
    decreases qty
  {
    hide SideOk, MatchOne, SideIndexed, Tracks;
    if CanMatch(s, limit, qty) {
      var m := MatchOne(s, ids, taker, qty);
      MatchOneHeard(client, c, s, t, ids, n, taker, qty);
      MatchOneIndexed(s, t, ids, n, taker, qty);
      var c' := Hear(client, c, m.events);
      MatchHeard(client, c', m.side, t, m.ids, n, limit, taker, m.left);
      HearConcat(client, c, m.events, MatchSide(m.side, m.ids, limit, taker, m.left).events);
    }
  }

  // ----- Every request -----

  predicate TracksBook(client: u32, c: Client, b: Book) {
    Tracks(client, c, b.bids, b.asks, b.ids, b.accepted)
  }

  lemma TwoHeard(client: u32, c: Client, x: Event, y: Event)
    requires !x.Trade? && !y.Trade?
    ensures Hear(client, c, [x]) == ReceiveAll(c, MessagesTo(client, x))
    ensures Hear(client, c, [x, y]) == ReceiveAll(ReceiveAll(c, MessagesTo(client, x)), MessagesTo(client, y))
  {
    assert [x][1..] == [] && [y][1..] == [];
    assert [x, y] == [x] + [y];
    HearConcat(client, c, [x], [y]);
  }

  lemma EventHeard(client: u32, c: Client, e: Event, m: Message)
    requires !e.Trade? && MessagesTo(client, e) in {[], [m]}
    ensures ReceiveAll(c, MessagesTo(client, e)) == if MessagesTo(client, e) == [] then c else Receive(c, m)
  {
  }

  lemma AddTracked(client: u32, c: Client, s: Side, t: Side, ids: map<u32, nat>, n: nat, r: nat, o: Order)
    requires Tracks(client, c, s, t, ids, n) && r < |s.queues| && s.free != [] && o.orderId == n && Sound(o)
    requires SideIndexed(s, ids, n) && SideIndexed(t, ids, n)
    ensures var open' := if o.clientId == client then c.open[n := ViewOf(o)] else c.open;
            Tracks(client, Client(open', true), Added(s, r, o), t, LearnId(ids, o), n + 1)
  {
    hide SideIndexed, TracksQueue, LearnId;
    var open' := if o.clientId == client then c.open[n := ViewOf(o)] else c.open;
    assert n !in c.open;
    forall i | 0 <= i < |t.queues| ensures TracksQueue(client, open', t.queues[i]) {
      YoungTracked(client, c.open, open', t, ids, n, i);
    }
    var s' := Added(s, r, o);
    forall i | 0 <= i < |s'.queues| ensures TracksQueue(client, open', s'.queues[i]) {
      YoungTracked(client, c.open, open', s, ids, n, i);
      if i == r {
        SnocTracked(client, open', s.queues[r], o);
      }
    }
    LearnedEntries(c.open, open', ids, n, o, client);
  }

  lemma LearnedEntries(open: map<u32, OpenOrder>, open': map<u32, OpenOrder>, ids: map<u32, nat>, n: nat, o: Order,
                       client: u32)
    requires Entries(open, ids, n) && o.orderId == n
    requires open' == if o.clientId == client then open[n := ViewOf(o)] else open
    ensures Entries(open', LearnId(ids, o), n + 1)
  {
  }

  lemma SnocTracked(client: u32, open: map<u32, OpenOrder>, q: seq<Order>, o: Order)
    requires TracksQueue(client, open, q) && TracksOrder(client, open, o)
    ensures TracksQueue(client, open, q + [o])
  {
  }

  lemma YoungTracked(client: u32, open: map<u32, OpenOrder>, open': map<u32, OpenOrder>, s: Side, ids: map<u32, nat>,
                     n: nat, i: nat)
    requires TracksSide(client, open, s.queues) && SideIndexed(s, ids, n) && i < |s.queues| && n < U32
    requires open' == open || (n !in open && n in open' && open' == open[n := open'[n]])
    ensures TracksQueue(client, open', s.queues[i])
  {
  }

  lemma RestHeard(client: u32, c: Client, b: Book, o: Order, request: u32)
    requires BookOk(b) && MINIMUM_BID <= o.price <= MAXIMUM_ASK && o.orderId == b.accepted - 1 && Sound(o)
    requires SideIndexed(b.bids, b.ids, o.orderId) && SideIndexed(b.asks, b.ids, o.orderId)
    requires Tracks(client, c, b.bids, b.asks, b.ids, o.orderId)
    ensures var out := Rest(b, o, request);
            TracksBook(client, Hear(client, c, out.events), out.book)
  {
    hide QueuesOk, HomeOk, FreeOk, IdsSide, SideIndexed, TracksSide, Hear;
    var own := SideOf(b, o.isBid);
    var out := Rest(b, o, request);
    if own.free == [] {
      TwoHeard(client, c, out.events[0], out.events[0]);
      assert MessagesTo(client, out.events[0]) == [];
    } else {
      var o' := o.(handle := own.free[0]);
      TwoHeard(client, c, out.events[0], out.events[1]);
      EventHeard(client, c, out.events[1], ConfirmInserted(o'.orderId, o'.isBid, o'.price, o'.quantity, o'.remaining));
      AddTracked(client, c, own, SideOf(b, !o.isBid), b.ids, o.orderId, RankOf(o.isBid, o.price), o');
    }
  }

  lemma SubmitHeard(client: u32, c: Client, b: Book, cmd: Command)
    requires BookOk(b) && Indexed(b) && b.accepted < U32 && cmd.Submit? && TracksBook(client, c, b)
    ensures var out := Apply(b, cmd);
            TracksBook(client, Hear(client, c, out.events), out.book)
  {
    hide SideOk, IdsSide, SideIndexed, MatchSide, Rest, TracksSide, Hear, Entries;
    if Accepted(cmd) {
      var m := MatchIncoming(b, cmd.price, cmd.quantity, cmd.isBid, cmd.client);
      var s, t := SideOf(b, !cmd.isBid), SideOf(b, cmd.isBid);
      var limit, taker := RankOf(!cmd.isBid, cmd.price), Taker(cmd.client, Wrap(b.accepted), cmd.quantity);
      MatchHeard(client, c, s, t, b.ids, b.accepted, limit, taker, cmd.quantity);
      MatchIndexed(s, t, b.ids, b.accepted, limit, taker, cmd.quantity);
      AfterMatchOk(b, cmd.price, cmd.quantity, cmd.isBid, cmd.client);
      var b1, c1 := AfterMatch(b, cmd.isBid, m), Hear(client, c, m.events);
      if 0 < m.left {
        var o := Incoming(b, cmd.price, cmd.quantity, m.left, cmd.isBid, cmd.client);
        BookSides(b1);
        RestHeard(client, c1, b1, o, cmd.request);
        HearConcat(client, c, m.events, Rest(b1, o, cmd.request).events);
      } else {
        AgeTracked(client, c1, m.side, t, m.ids, b.accepted);
      }
    } else {
      TwoHeard(client, c, Apply(b, cmd).events[0], Apply(b, cmd).events[0]);
      assert MessagesTo(client, Apply(b, cmd).events[0]) == [];
    }
  }

  lemma AgeTracked(client: u32, c: Client, s: Side, t: Side, ids: map<u32, nat>, n: nat)
    requires Tracks(client, c, s, t, ids, n)
    ensures Tracks(client, c, s, t, ids, n + 1)
  {
  }

  lemma PlaceTracked(client: u32, c: Client, b: Book, p: Place)
    requires TracksBook(client, c, b) && ValidPlace(b, p)
    ensures TracksOrder(client, c.open, OrderAt(b, p))
    ensures var s := SideOf(b, p.isBid); Tracks(client, c, s, SideOf(b, !p.isBid), b.ids, b.accepted)
  {
  }

  lemma CancelHeard(client: u32, c: Client, b: Book, cmd: Command)
    requires BookOk(b) && Indexed(b) && cmd.Cancel? && TracksBook(client, c, b)
    ensures var out := Apply(b, cmd);
            TracksBook(client, Hear(client, c, out.events), out.book)
  {
    hide QueuesOk, HomeOk, FreeOk, IdsSide, Lookup, SideIndexed, TracksSide, Hear, ScanFrom, Elsewhere, Entries;
    var p := Lookup(b, cmd.id);
    var events := Apply(b, cmd).events;
    TwoHeard(client, c, events[0], events[|events| - 1]);
    if p.At? && OrderAt(b, p).clientId == cmd.client {
      var o := OrderAt(b, p);
      PlaceTracked(client, c, b, p);
      EventHeard(client, c, events[1], ConfirmCancelled(o.orderId));
      var open' := c.open - {o.orderId};
      Dropped(c.open, o.orderId);
      assert c.open == open' || o.clientId == client;
      RemoveTracked(client, c, open', SideOf(b, p.isBid), SideOf(b, !p.isBid), b.ids, b.accepted, p.r, p.k);
    } else {
      assert MessagesTo(client, events[0]) == [];
    }
  }

  lemma Dropped(open: map<u32, OpenOrder>, id: u32)
    ensures Elsewhere(open, open - {id}, id)
    ensures id !in open ==> open - {id} == open
  {
  }

  lemma Changed(open: map<u32, OpenOrder>, id: u32, o: OpenOrder)
    ensures Elsewhere(open, open[id := o], id) && Elsewhere(open, open, id)
  {
  }

  lemma AmendHeard(client: u32, c: Client, b: Book, cmd: Command)
    requires BookOk(b) && Indexed(b) && cmd.Amend? && TracksBook(client, c, b)
    ensures var out := Apply(b, cmd);
            TracksBook(client, Hear(client, c, out.events), out.book)
  {
    hide QueuesOk, HomeOk, FreeOk, IdsSide, Lookup, SideIndexed, TracksSide, Hear, ReduceAt;
    var p := Lookup(b, cmd.id);
    if p.Nowhere? || OrderAt(b, p).clientId != cmd.client || !Amendable(OrderAt(b, p), cmd.newQuantity) {
      var e := Apply(b, cmd).events[0];
      TwoHeard(client, c, e, e);
      assert MessagesTo(client, e) == [];
    } else {
      var o := OrderAt(b, p);
      PlaceTracked(client, c, b, p);
      PlaceOk(SideOf(b, p.isBid), p.r, p.k);
      if cmd.newQuantity - o.cumulative == o.remaining {
        var e := Apply(b, cmd).events[0];
        TwoHeard(client, c, e, e);
        EventHeard(client, c, e, ConfirmAmended(o.orderId, o.quantity, o.remaining));
        assert o.clientId == client ==> c.open[o.orderId := ViewOf(o)] == c.open;
      } else {
        ReduceHeard(client, c, b, p, cmd.request, cmd.newQuantity);
      }
    }
  }

  lemma ReduceHeard(client: u32, c: Client, b: Book, p: Place, request: u32, newQuantity: u32)
    requires BookOk(b) && Indexed(b) && TracksBook(client, c, b) && ValidPlace(b, p)
    requires Amendable(OrderAt(b, p), newQuantity) && newQuantity - OrderAt(b, p).cumulative != OrderAt(b, p).remaining
    ensures var out := ReduceAt(b, p, request, newQuantity);
            TracksBook(client, Hear(client, c, out.events), out.book)
  {
    hide QueuesOk, HomeOk, FreeOk, IdsSide, SideIndexed, TracksSide, Hear, ScanFrom, Elsewhere, Entries;
    var o := OrderAt(b, p);
    var o' := Resized(o, newQuantity);
    var s, t := SideOf(b, p.isBid), SideOf(b, !p.isBid);
    var events := ReduceAt(b, p, request, newQuantity).events;
    PlaceTracked(client, c, b, p);
    TwoHeard(client, c, events[0], events[1]);
    EventHeard(client, c, events[0], ConfirmAmended(o'.orderId, o'.quantity, o'.remaining));
    Changed(c.open, o.orderId, ViewOf(o'));
    var open' := if o.clientId == client then c.open[o.orderId := ViewOf(o')] else c.open;
    if o'.remaining == 0 {
      RemoveTracked(client, c, open', s, t, b.ids, b.accepted, p.r, p.k);
    } else {
      UpdateTracked(client, c, open', s, t, b.ids, b.accepted, p.r, p.k, o');
    }
  }

  lemma ApplyHeard(client: u32, c: Client, b: Book, cmd: Command)
    requires BookOk(b) && Indexed(b) && TracksBook(client, c, b) && Apply(b, cmd).book.accepted <= U32
    ensures var out := Apply(b, cmd);
            TracksBook(client, Hear(client, c, out.events), out.book)
  {
    hide BookOk, Indexed, TracksBook, Apply, Hear;
    Counted(b, cmd);
    if cmd.Submit? {
      if b.accepted < U32 {
        SubmitHeard(client, c, b, cmd);
      } else {
        RejectedHeard(client, c, b, cmd);
      }
    } else if cmd.Cancel? {
      CancelHeard(client, c, b, cmd);
    } else {
      AmendHeard(client, c, b, cmd);
    }
  }

  lemma RejectedHeard(client: u32, c: Client, b: Book, cmd: Command)
    requires BookOk(b) && cmd.Submit? && TracksBook(client, c, b) && Apply(b, cmd).book.accepted == b.accepted
    ensures var out := Apply(b, cmd);
            TracksBook(client, Hear(client, c, out.events), out.book)
  {
    hide QueuesOk, HomeOk, FreeOk, IdsSide, MatchSide, TracksSide, Hear;
    Counted(b, cmd);
    var e := Apply(b, cmd).events[0];
    TwoHeard(client, c, e, e);
    assert MessagesTo(client, e) == [];
  }

  // ----- Runs -----

  /** The client's replica after a whole run. */
  function RunClient(client: u32, cs: seq<Command>): Client
    decreases |cs|
  {
    if cs == [] then Client(map[], true)
    else
      var n := |cs| - 1;
      Hear(client, RunClient(client, cs[..n]), Apply(Run(cs[..n]), cs[n]).events)
  }

  lemma {:induction false} RunHeard(client: u32, cs: seq<Command>)
    requires Run(cs).accepted <= U32
    ensures TracksBook(client, RunClient(client, cs), Run(cs))
  {
    hide BookOk, Apply, Tracks, Hear;
    if cs == [] {
      EmptyTracked(client);
    } else {
      var prefix, cmd := cs[..|cs| - 1], cs[|cs| - 1];
      Counted(Run(prefix), cmd);
      RunIndexed(prefix);
      RunHeard(client, prefix);
      ApplyHeard(client, RunClient(client, prefix), Run(prefix), cmd);
    }
  }

  lemma EmptyTracked(client: u32)
    ensures TracksBook(client, Client(map[], true), EmptyBook())
  {
  }

  /** On every run of at most 2^32 accepted submissions, no handler of the client fails; an entry
      with something remaining is exactly a resting order of that client, with the engine's
      numbers; and an entry with nothing remaining is an order amended down to its filled amount. */
  lemma ReplicaExact(client: u32, cs: seq<Command>, id: u32)
    requires Run(cs).accepted <= U32
    ensures var b, c := Run(cs), RunClient(client, cs);
            var p := Lookup(b, id);
            var own := p.At? && OrderAt(b, p).clientId == client;
            && c.alive
            && (id in c.open && 0 < c.open[id].remaining <==> own)
            && (own ==> c.open[id] == ViewOf(OrderAt(b, p)))
            && (id in c.open && c.open[id].remaining == 0 ==> c.open[id].quantity == c.open[id].cumulative)
  {
    hide QueuesOk, HomeOk, FreeOk, IdsSide, Lookup, Run, RunClient, TracksSide;
    var b, c := Run(cs), RunClient(client, cs);
    RunHeard(client, cs);
    LookupFinds(b, id);
    var p := Lookup(b, id);
    if p.At? {
      PlaceTracked(client, c, b, p);
    }
  }

  // ----- The handlers -----

  class Trader {
    var openOrders: map<u32, OpenOrder>
    var running: bool

    ghost function State(): Client
      reads this
    {
      Client(openOrders, running)
    }

    constructor ()
      ensures State() == Client(map[], true)
    {
      openOrders, running := map[], true;
    }

    method OnConfirmOrderInserted(id: u32, isBid: bool, price: int, total: u32, leaves: u32)
      requires running
      modifies this
      ensures State() == Receive(old(State()), ConfirmInserted(id, isBid, price, total, leaves))
      ensures running && openOrders == old(openOrders)[id := OpenOrder(price, total, leaves, total - leaves, isBid)]
    {
      openOrders := openOrders[id := OpenOrder(price, total, leaves, total - leaves, isBid)];
    }

    method OnPartialFill(id: u32, leaves: u32, cumulative: u32)
      requires running
      modifies this
      ensures State() == Receive(old(State()), PartialFill(id, leaves, cumulative))
      ensures running && openOrders == if id !in old(openOrders) then old(openOrders)
                                       else if leaves == 0 then old(openOrders) - {id}
                                       else old(openOrders)[id := old(openOrders)[id].(remaining := leaves,
                                                                                       cumulative := cumulative)]
    {
      if id !in openOrders {
        return;
      }
      if leaves == 0 {
        openOrders := openOrders - {id};
        return;
      }
      openOrders := openOrders[id := openOrders[id].(remaining := leaves, cumulative := cumulative)];
    }

    method OnConfirmOrderCancelled(id: u32)
      requires running
      modifies this
      ensures State() == Receive(old(State()), ConfirmCancelled(id))
      ensures running && openOrders == old(openOrders) - {id}
    {
      if id in openOrders {
        openOrders := openOrders - {id};
      }
    }

    /** An unknown id raises a key error, which ends the receive loop. */
    method OnConfirmOrderAmended(id: u32, newTotal: u32, leaves: u32)
      requires running
      modifies this
      ensures State() == Receive(old(State()), ConfirmAmended(id, newTotal, leaves))
      ensures running == (id in old(openOrders))
      ensures openOrders == if id !in old(openOrders) then old(openOrders)
                            else old(openOrders)[id := old(openOrders)[id].(quantity := newTotal, remaining := leaves)]
    {
      if id !in openOrders {
        running := false;
        return;
      }
      openOrders := openOrders[id := openOrders[id].(quantity := newTotal)];
      openOrders := openOrders[id := openOrders[id].(remaining := leaves)];
    }

    /** The receive loop: one handler per message until one fails. */
    method ReceiveLoop(messages: seq<Message>)
      modifies this
      ensures State() == ReceiveAll(old(State()), messages)
    {
      for i := 0 to |messages|
        invariant ReceiveAll(State(), messages[i..]) == ReceiveAll(old(State()), messages)
      {
        assert messages[i..][0] == messages[i] && messages[i..][1..] == messages[i + 1..];
        if running {
          match messages[i]
          case ConfirmInserted(id, isBid, price, total, leaves) =>
            OnConfirmOrderInserted(id, isBid, price, total, leaves);
          case PartialFill(id, leaves, cumulative) => OnPartialFill(id, leaves, cumulative);
          case ConfirmCancelled(id) => OnConfirmOrderCancelled(id);
          case ConfirmAmended(id, newTotal, leaves) => OnConfirmOrderAmended(id, newTotal, leaves);
        }
      }
    }
  }
}
