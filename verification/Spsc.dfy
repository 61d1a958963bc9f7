/** The single-producer single-consumer ring: every interleaving of the two threads' loads and
    stores is a run of a bounded FIFO queue. */
module Spsc {
  import opened Modular

  /** A capacity is a power of two, at least 2, below the counter range. */
  predicate Capacity(cap: nat) {
    exists k: nat :: 1 <= k <= 63 && cap == Pow2(k)
  }

  function Sub(a: int, b: int): nat {
    (a - b) % W
  }

  function Inc(a: nat): nat {
    (a + 1) % W
  }

  /** The slot of a counter value: its low bits. */
  function Slot(x: nat, cap: nat): nat
    requires 0 < cap
  {
    BitAnd(x, cap - 1)
  }

  lemma CapacityFacts(cap: nat)
    requires Capacity(cap)
    ensures 2 <= cap < W
    ensures exists m: nat :: 0 < m && W == cap * m
    ensures forall x: nat :: Slot(x, cap) == x % cap
  {
    hide Pow2;
    var k: nat :| 1 <= k <= 63 && cap == Pow2(k);
    var m := Pow2(64 - k);
    Pow2Add(k, 64 - k);
    Pow2Of64();
    Pow2Positive(k - 1);
    Pow2Positive(64 - k - 1);
    MulMono(cap, 1, m);
    assert 0 < m && W == cap * m;
    forall x: nat ensures Slot(x, cap) == x % cap {
      MaskIsMod(x, k);
    }
  }

  lemma Pow2Positive(k: nat)
    ensures Pow2(k + 1) == 2 * Pow2(k) >= 2
  {
  }

  /** Reducing a counter modulo 2^64 does not move its slot. */
  lemma SlotWrap(x: int, cap: nat)
    requires Capacity(cap)
    ensures (x % W) % cap == x % cap
  {
    CapacityFacts(cap);
    var m: nat :| 0 < m && W == cap * m;
    ModMod(x, cap, m);
  }

  /** The slot of the i-th queued item. */
  function Place(tail: nat, i: nat, cap: nat): (p: nat)
    requires 0 < cap
    ensures p < cap
  {
    (tail + i) % cap
  }

  /** The queued items: from the tail's slot up to the head's, in order. */
  function Contents<T>(buffer: seq<T>, head: nat, tail: nat): (q: seq<T>)
    requires |buffer| > 0
    ensures |q| == Sub(head, tail)
  {
    seq(Sub(head, tail), i requires 0 <= i => buffer[Place(tail, i, |buffer|)])
  }

  /** Counting from the tail, the head's slot is where the next item goes. */
  lemma HeadSlot(head: nat, tail: nat, cap: nat)
    requires Capacity(cap) && head < W && tail < W
    ensures 0 < cap && Place(tail, Sub(head, tail), cap) == head % cap
  {
    hide Capacity, Sub;
    CapacityFacts(cap);
    SlotWrap(tail + Sub(head, tail), cap);
    SubSum(head, tail);
  }

  lemma Reduced(x: int)
    requires 0 <= x + W && x < 2 * W
    ensures x % W == if x < 0 then x + W else if x < W then x else x - W
  {
  }

  lemma SubSum(head: nat, tail: nat)
    requires head < W && tail < W
    ensures (tail + Sub(head, tail)) % W == head
  {
  }

  lemma PlacesApart(tail: nat, i: nat, n: nat, cap: nat)
    requires 0 < cap && i < n < cap
    ensures Place(tail, i, cap) != Place(tail, n, cap)
  {
    if Place(tail, i, cap) == Place(tail, n, cap) {
      ModEqual(tail + n, tail + i, cap);
    }
  }

  /** The head slot of a queue that is not full holds none of its items. */
  lemma WriteUnseen<T>(buffer: seq<T>, head: nat, tail: nat, x: T)
    requires Capacity(|buffer|) && head < W && tail < W && Sub(head, tail) < |buffer|
    ensures Contents(buffer[head % |buffer| := x], head, tail) == Contents(buffer, head, tail)
  {
    hide Place, Capacity;
    var cap, n := |buffer|, Sub(head, tail);
    HeadSlot(head, tail, cap);
    forall i: nat | i < n ensures Place(tail, i, cap) != head % cap {
      PlacesApart(tail, i, n, cap);
    }
  }

  lemma SubInc(head: nat, tail: nat)
    requires head < W && tail < W
    ensures Sub(head, tail) < W - 1 ==> Sub(Inc(head), tail) == Sub(head, tail) + 1
    ensures 0 < Sub(head, tail) ==> Sub(head, Inc(tail)) == Sub(head, tail) - 1
  {
    hide Sub, Inc;
    IncForm(head);
    IncForm(tail);
    SubForm(head, tail);
    SubForm(Inc(head), tail);
    SubForm(head, Inc(tail));
  }

  lemma IncForm(a: nat)
    requires a < W
    ensures Inc(a) == if a + 1 < W then a + 1 else 0
  {
    Reduced(a + 1);
  }

  lemma SubForm(a: nat, b: nat)
    requires a < W && b < W
    ensures Sub(a, b) == if b <= a then a - b else a - b + W
  {
    Reduced(a - b);
  }

  /** Advancing the head publishes the item written in its slot. */
  lemma Publish<T>(buffer: seq<T>, head: nat, tail: nat)
    requires Capacity(|buffer|) && head < W && tail < W && Sub(head, tail) < |buffer|
    ensures Contents(buffer, Inc(head), tail) == Contents(buffer, head, tail) + [buffer[head % |buffer|]]
  {
    hide Place, Capacity, Sub, Inc;
    CapacityFacts(|buffer|);
    HeadSlot(head, tail, |buffer|);
    SubInc(head, tail);
  }

  lemma PlaceShift(tail: nat, i: nat, cap: nat)
    requires Capacity(cap) && tail < W
    ensures 0 < cap && Place(Inc(tail), i, cap) == Place(tail, i + 1, cap)
  {
    CapacityFacts(cap);
    if tail + 1 == W {
      var m: nat :| 0 < m && W == cap * m;
      ModAddMultiple(i, m, cap);
    }
  }

  /** Advancing the tail removes the first item. */
  lemma Release<T>(buffer: seq<T>, head: nat, tail: nat)
    requires Capacity(|buffer|) && head < W && tail < W && 0 < Sub(head, tail)
    ensures Contents(buffer, head, tail)[0] == buffer[tail % |buffer|]
    ensures Contents(buffer, head, Inc(tail)) == Contents(buffer, head, tail)[1..]
  {
    hide Capacity, Sub, Inc;
    CapacityFacts(|buffer|);
    SubInc(head, tail);
    forall i: nat | i < Sub(head, tail) - 1 ensures Place(Inc(tail), i, |buffer|) == Place(tail, i + 1, |buffer|) {
      PlaceShift(tail, i, |buffer|);
    }
  }

  // ----- The two threads -----

  /** The producer inside try_push: nothing loaded, head loaded, room seen, item written. */
  datatype Producer<T> =
    | Resting
    | HeadLoaded(item: T, head: nat)
    | RoomSeen(item: T, head: nat)
    | Written(item: T, head: nat)

  datatype Operation = Pop | Peek | ConsumeOne

  /** The consumer inside one of its operations. `pointer` in the state says that the last peek
      returned a pointer and nothing was consumed since. */
  datatype Consumer<T> =
    | Waiting
    | TailLoaded(op: Operation, tail: nat)
    | ItemSeen(op: Operation, tail: nat)
    | ItemRead(item: T, tail: nat)
    | Sizing(head: nat)          // size_approx: head loaded

  datatype State<T> = State(head: nat, tail: nat, buffer: seq<T>, producer: Producer<T>, consumer: Consumer<T>,
                            pointer: bool)

  /** What a step shows to the outside. */
  datatype Label<T> =
    | Silent
    | Pushed(item: T)
    | PushRefused
    | Popped(item: T)
    | Pointed
    | Dereferenced(item: T)
    | Consumed
    | FoundEmpty
    | Sized(size: nat)

  function Queue<T>(s: State<T>): seq<T>
    requires |s.buffer| > 0
  {
    Contents(s.buffer, s.head, s.tail)
  }

  ghost predicate ProducerStep<T>(s: State<T>, l: Label<T>, s': State<T>)
    requires |s.buffer| > 0
  {
    match s.producer
    case Resting =>
      l == Silent && s'.producer.HeadLoaded? && s' == s.(producer := HeadLoaded(s'.producer.item, s.head))
    case HeadLoaded(item, head) =>
      if Sub(head, s.tail) >= |s.buffer| then l == PushRefused && s' == s.(producer := Resting)
      else l == Silent && s' == s.(producer := RoomSeen(item, head))
    case RoomSeen(item, head) =>
      && l == Silent
      && Slot(head, |s.buffer|) < |s.buffer|
      && s' == s.(buffer := s.buffer[Slot(head, |s.buffer|) := item], producer := Written(item, head))
    case Written(item, head) =>
      l == Pushed(item) && s' == s.(head := Inc(head), producer := Resting)
  }

  ghost predicate ConsumerStep<T>(s: State<T>, l: Label<T>, s': State<T>)
    requires |s.buffer| > 0
  {
    match s.consumer
    case Waiting =>
      || (l == Silent && s'.consumer.TailLoaded? && s' == s.(consumer := TailLoaded(s'.consumer.op, s.tail)))
      || (l == Silent && s' == s.(consumer := Sizing(s.head)))
      || (s.pointer && Slot(s.tail, |s.buffer|) < |s.buffer| && l == Dereferenced(s.buffer[Slot(s.tail, |s.buffer|)])
          && s' == s)
    case TailLoaded(op, tail) =>
      if tail == s.head then l == FoundEmpty && s' == s.(consumer := Waiting)
      else l == Silent && s' == s.(consumer := ItemSeen(op, tail))
    case ItemSeen(op, tail) =>
      (match op
       case Pop =>
         && l == Silent
         && Slot(tail, |s.buffer|) < |s.buffer|
         && s' == s.(consumer := ItemRead(s.buffer[Slot(tail, |s.buffer|)], tail))
       case Peek => l == Pointed && s' == s.(consumer := Waiting, pointer := true)
       case ConsumeOne => l == Consumed && s' == s.(tail := Inc(tail), consumer := Waiting, pointer := false))
    case ItemRead(item, tail) =>
      l == Popped(item) && s' == s.(tail := Inc(tail), consumer := Waiting, pointer := false)
    case Sizing(head) =>
      l == Sized(Sub(head, s.tail)) && s' == s.(consumer := Waiting)
  }

  ghost predicate Step<T>(s: State<T>, l: Label<T>, s': State<T>)
    requires |s.buffer| > 0
  {
    ProducerStep(s, l, s') || ConsumerStep(s, l, s')
  }

  ghost predicate Init<T>(s: State<T>) {
    s.head == s.tail == 0 && Capacity(|s.buffer|) && s.producer == Resting && s.consumer == Waiting && !s.pointer
  }

  /** The bounded FIFO queue. */
  ghost predicate FifoStep<T>(cap: nat, q: seq<T>, l: Label<T>, q': seq<T>) {
    match l
    case Silent => q' == q
    case Pushed(x) => |q| < cap && q' == q + [x]
    case PushRefused => |q| == cap && q' == q
    case Popped(x) => q != [] && x == q[0] && q' == q[1..]
    case Pointed => q != [] && q' == q
    case Dereferenced(x) => q != [] && x == q[0] && q' == q
    case Consumed => q != [] && q' == q[1..]
    case FoundEmpty => q == [] && q' == q
    case Sized(n) => n <= |q| && q' == q
  }

  // ----- The invariant -----

  ghost predicate ProducerOk<T>(s: State<T>)
    requires |s.buffer| > 0
  {
    match s.producer
    case Resting => true
    case HeadLoaded(_, head) => head == s.head
    case RoomSeen(_, head) => head == s.head && Sub(s.head, s.tail) < |s.buffer|
    case Written(item, head) =>
      head == s.head && Sub(s.head, s.tail) < |s.buffer| && s.buffer[s.head % |s.buffer|] == item
  }

  ghost predicate ConsumerOk<T>(s: State<T>)
    requires |s.buffer| > 0
  {
    && (s.pointer ==> 0 < Sub(s.head, s.tail))
    && match s.consumer
       case Waiting => true
       case TailLoaded(_, tail) => tail == s.tail
       case ItemSeen(_, tail) => tail == s.tail && 0 < Sub(s.head, s.tail)
       case ItemRead(item, tail) => tail == s.tail && 0 < Sub(s.head, s.tail) && item == s.buffer[s.tail % |s.buffer|]
       case Sizing(head) => head < W && Sub(head, s.tail) <= Sub(s.head, s.tail)
  }

  ghost predicate Inv<T>(s: State<T>) {
    && Capacity(|s.buffer|)
    && |s.buffer| > 0
    && s.head < W && s.tail < W
    && Sub(s.head, s.tail) <= |s.buffer|
    && ProducerOk(s)
    && ConsumerOk(s)
  }

  lemma SubZero(head: nat, tail: nat)
    requires head < W && tail < W
    ensures Sub(head, tail) == 0 <==> head == tail
  {
  }

  /** A write to the head's slot leaves the tail's slot alone while the queue is neither full nor empty. */
  lemma FrontUnwritten(head: nat, tail: nat, cap: nat)
    requires Capacity(cap) && head < W && tail < W && 0 < Sub(head, tail) < cap
    ensures head % cap != tail % cap
  {
    HeadSlot(head, tail, cap);
    PlacesApart(tail, 0, Sub(head, tail), cap);
  }

  lemma ProducerRefines<T>(s: State<T>, l: Label<T>, s': State<T>)
    requires Inv(s) && ProducerStep(s, l, s')
    ensures Inv(s') && FifoStep(|s.buffer|, Queue(s), l, Queue(s'))
  {
    hide Capacity, Sub, Inc, Contents, Slot;
    CapacityFacts(|s.buffer|);
    SubInc(s.head, s.tail);
    IncBelow(s.head);
    match s.producer
    case Resting =>
    case HeadLoaded(item, head) =>
    case RoomSeen(item, head) =>
      WriteUnseen(s.buffer, s.head, s.tail, item);
      if 0 < Sub(s.head, s.tail) {
        FrontUnwritten(s.head, s.tail, |s.buffer|);
      }
    case Written(item, head) =>
      Publish(s.buffer, s.head, s.tail);
  }

  lemma IncBelow(a: nat)
    ensures Inc(a) < W
  {
  }

  lemma ConsumerRefines<T>(s: State<T>, l: Label<T>, s': State<T>)
    requires Inv(s) && ConsumerStep(s, l, s')
    ensures Inv(s') && FifoStep(|s.buffer|, Queue(s), l, Queue(s'))
  {
    hide Capacity, Sub, Inc, Slot;
    CapacityFacts(|s.buffer|);
    SubInc(s.head, s.tail);
    SubZero(s.head, s.tail);
    IncBelow(s.tail);
    if 0 < Sub(s.head, s.tail) {
      Release(s.buffer, s.head, s.tail);
    }
  }

  /** Every step of either thread keeps the invariant and is a step of the bounded FIFO. */
  lemma StepRefines<T>(s: State<T>, l: Label<T>, s': State<T>)
    requires Inv(s) && Step(s, l, s')
    ensures Inv(s') && FifoStep(|s.buffer|, Queue(s), l, Queue(s'))
    ensures |s'.buffer| == |s.buffer|
  {
    if ProducerStep(s, l, s') {
      ProducerRefines(s, l, s');
    } else {
      ConsumerRefines(s, l, s');
    }
  }

  // ----- Runs -----

  ghost predicate IsRun<T>(states: seq<State<T>>, labels: seq<Label<T>>) {
    && |states| == |labels| + 1
    && Init(states[0])
    && (forall i :: 0 <= i < |states| ==> |states[i].buffer| == |states[0].buffer| > 0)
    && (forall i, j :: 0 <= i < j < |states| && j == i + 1 ==> Step(states[i], labels[i], states[j]))
  }

  /** The items pushed, in order, and the number taken by pops and consumes. */
  function Items<T>(labels: seq<Label<T>>): seq<T> {
    if labels == [] then []
    else
      var l := labels[|labels| - 1];
      Items(labels[..|labels| - 1]) + if l.Pushed? then [l.item] else []
  }

  function Takes<T>(labels: seq<Label<T>>): nat {
    if labels == [] then 0
    else
      var l := labels[|labels| - 1];
      Takes(labels[..|labels| - 1]) + if l.Popped? || l.Consumed? then 1 else 0
  }

  lemma InitInv<T>(s: State<T>)
    requires Init(s) && |s.buffer| > 0
    ensures Inv(s) && Queue(s) == []
  {
  }

  /** After n steps the queue holds exactly the pushed items that were not taken yet, in order. */
  lemma {:induction false} RunQueue<T>(states: seq<State<T>>, labels: seq<Label<T>>, n: nat)
    requires IsRun(states, labels) && n <= |labels|
    ensures Inv(states[n])
    ensures Takes(labels[..n]) <= |Items(labels[..n])|
    ensures Queue(states[n]) == Items(labels[..n])[Takes(labels[..n])..]
  {
    hide Inv, Step, Init, Contents, Capacity;
    if n == 0 {
      InitInv(states[0]);
    } else {
      RunQueue(states, labels, n - 1);
      assert Step(states[n - 1], labels[n - 1], states[n]);
      StepRefines(states[n - 1], labels[n - 1], states[n]);
      assert labels[..n][..n - 1] == labels[..n - 1];
    }
  }

  /** Every interleaving is a run of the bounded FIFO: a push succeeds only below capacity and is
      refused only at capacity, an operation finds the queue empty only when it is, and the k-th
      item taken, or looked at after k were taken, is the k-th item pushed. */
  lemma RunIsFifo<T>(states: seq<State<T>>, labels: seq<Label<T>>, n: nat)
    requires IsRun(states, labels) && n < |labels|
    ensures |Queue(states[n])| <= |states[0].buffer|
    ensures FifoStep(|states[0].buffer|, Queue(states[n]), labels[n], Queue(states[n + 1]))
    ensures var k, items := Takes(labels[..n]), Items(labels[..n]);
            && (labels[n].Popped? || labels[n].Dereferenced? ==> k < |items| && labels[n].item == items[k])
            && (labels[n].PushRefused? ==> |items| - k == |states[0].buffer|)
            && (labels[n].FoundEmpty? ==> |items| == k)
  {
    hide Step, Init, Contents, Capacity, Items, Takes;
    RunQueue(states, labels, n);
    assert Step(states[n], labels[n], states[n + 1]);
    StepRefines(states[n], labels[n], states[n + 1]);
  }

  /** The item a peek points to is not overwritten: until the next pop or consume, every read
      through the pointer gives the item that was first in the queue when peek returned. */
  lemma PeekStable<T>(states: seq<State<T>>, labels: seq<Label<T>>, i: nat, j: nat)
    requires IsRun(states, labels) && i < j < |labels|
    requires labels[i].Pointed? && labels[j].Dereferenced?
    requires forall n :: i <= n < j ==> !labels[n].Popped? && !labels[n].Consumed?
    ensures Queue(states[i]) != [] && labels[j].item == Queue(states[i])[0]
  {
    hide Step, Init, Contents, Capacity, Items, Takes, Inv;
    RunIsFifo(states, labels, i);
    RunIsFifo(states, labels, j);
    RunQueue(states, labels, i);
    TakesStay(labels, i, j);
    ItemsGrow(labels, i, j);
  }

  /** Between its two loads a size query stands still, whatever the producer does. */
  lemma {:induction false} SizingStays<T>(states: seq<State<T>>, labels: seq<Label<T>>, i: nat, n: nat)
    requires IsRun(states, labels) && i < n < |states| && !states[i].consumer.Sizing?
    requires forall k :: i < k <= n ==> states[k].consumer.Sizing?
    ensures states[n].consumer == Sizing(states[i].head) && states[n].tail == states[i].tail
    decreases n - i
  {
    assert Step(states[n - 1], labels[n - 1], states[n]);
    if i < n - 1 {
      SizingStays(states, labels, i, n - 1);
    }
  }

  /** A size query reports the length the queue had at its first load; so it reports 0 only if the
      queue was empty then. */
  lemma SizeExact<T>(states: seq<State<T>>, labels: seq<Label<T>>, i: nat, j: nat)
    requires IsRun(states, labels) && i < j < |labels| && !states[i].consumer.Sizing?
    requires labels[j].Sized? && forall k :: i < k <= j ==> states[k].consumer.Sizing?
    ensures labels[j].size == |Queue(states[i])|
    ensures labels[j].size == 0 <==> Queue(states[i]) == []
  {
    SizingStays(states, labels, i, j);
    assert Step(states[j], labels[j], states[j + 1]);
  }

  lemma {:induction false} TakesStay<T>(labels: seq<Label<T>>, i: nat, j: nat)
    requires i <= j <= |labels|
    requires forall n :: i <= n < j ==> !labels[n].Popped? && !labels[n].Consumed?
    ensures Takes(labels[..j]) == Takes(labels[..i])
    decreases j - i
  {
    if i < j {
      TakesStay(labels, i, j - 1);
      assert labels[..j][..j - 1] == labels[..j - 1];
    }
  }

  lemma {:induction false} ItemsGrow<T>(labels: seq<Label<T>>, i: nat, j: nat)
    requires i <= j <= |labels|
    ensures Items(labels[..i]) <= Items(labels[..j])
    decreases j - i
  {
    if i < j {
      ItemsGrow(labels, i, j - 1);
      assert labels[..j][..j - 1] == labels[..j - 1];
    }
  }

  // ----- The queue object -----

  class SpscQueue<T(0)> {
    const buffer: array<T>
    var head: nat
    var tail: nat

    ghost predicate Valid()
      reads this
    {
      Capacity(buffer.Length) && buffer.Length > 0 && head < W && tail < W && Sub(head, tail) <= buffer.Length
    }

    ghost function Items(): seq<T>
      requires Valid()
      reads this, buffer
    {
      Contents(buffer[..], head, tail)
    }

    constructor (capacity: nat)
      requires Capacity(capacity)
      ensures Valid() && fresh(buffer) && buffer.Length == capacity && Items() == []
    {
      CapacityFacts(capacity);
      buffer := new T[capacity];
      head, tail := 0, 0;
    }

    method TryPush(item: T) returns (ok: bool)
      requires Valid()
      modifies this, buffer
      ensures Valid()
      ensures ok <==> |old(Items())| < buffer.Length
      ensures Items() == if ok then old(Items()) + [item] else old(Items())
    {
      hide Capacity, Contents, Sub, Inc, Slot;
      CapacityFacts(buffer.Length);
      var h, t := head, tail;
      SubInc(h, t);
      IncBelow(h);
      if Sub(h, t) >= buffer.Length {
        return false;
      }
      buffer[Slot(h, buffer.Length)] := item;
      WriteUnseen(old(buffer[..]), h, t, item);
      assert buffer[..] == old(buffer[..])[h % buffer.Length := item];
      Publish(buffer[..], h, t);
      head := Inc(h);
      return true;
    }

    method TryPop() returns (ok: bool, out: T)
      requires Valid()
      modifies this
      ensures Valid()
      ensures ok <==> old(Items()) != []
      ensures ok ==> out == old(Items())[0] && Items() == old(Items())[1..]
      ensures !ok ==> Items() == []
    {
      hide Capacity, Contents, Sub, Inc, Slot;
      CapacityFacts(buffer.Length);
      var t, h := tail, head;
      SubZero(h, t);
      SubInc(h, t);
      IncBelow(t);
      out := buffer[0];
      if t == h {
        return false, out;
      }
      Release(buffer[..], h, t);
      out := buffer[Slot(t, buffer.Length)];
      tail := Inc(t);
      ok := true;
    }

    /** The slot of the first item, if there is one. */
    method Peek() returns (ok: bool, slot: nat)
      requires Valid()
      ensures ok <==> Items() != []
      ensures ok ==> slot < buffer.Length && buffer[slot] == Items()[0]
    {
      hide Capacity, Contents, Sub, Inc, Slot;
      CapacityFacts(buffer.Length);
      SubZero(head, tail);
      if tail == head {
        return false, 0;
      }
      Release(buffer[..], head, tail);
      return true, Slot(tail, buffer.Length);
    }

    method ConsumeOne() returns (ok: bool)
      requires Valid()
      modifies this
      ensures Valid()
      ensures ok <==> old(Items()) != []
      ensures Items() == if ok then old(Items())[1..] else []
    {
      hide Capacity, Contents, Sub, Inc;
      SubZero(head, tail);
      SubInc(head, tail);
      IncBelow(tail);
      if tail == head {
        return false;
      }
      Release(buffer[..], head, tail);
      tail := Inc(tail);
      return true;
    }

    method SizeApprox() returns (size: nat)
      requires Valid()
      ensures size == |Items()|
    {
      hide Capacity, Sub;
      var h, t := head, tail;
      size := Sub(h, t);
    }
  }
}
