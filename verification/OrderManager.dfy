/** The simulator's order expiry: orders are cancelled when the accumulated hazard passes their
    threshold, through a priority queue whose dead entries are removed lazily. */
module OrderManagers {
  import opened Heaps

  type Id = nat

  datatype Entry = Entry(threshold: real, id: Id)

  /** What is scheduled next: nothing, a firing at once, or a timer. */
  datatype Alarm = NoAlarm | FireNow | FireIn(delay: real)

  function Threshold(e: Entry): real {
    e.threshold
  }

  /** An entry of an active order has the least threshold. */
  ghost predicate TopLive(q: multiset<Entry>, active: set<Id>) {
    exists e :: Least(q, e, Threshold) && e.id in active
  }

  /** Some entry of this id is due at hazard h. */
  ghost predicate Due(q: multiset<Entry>, id: Id, h: real) {
    exists e :: e in q && e.id == id && e.threshold <= h
  }

  ghost predicate HasEntry(q: multiset<Entry>, id: Id) {
    exists e :: e in q && e.id == id
  }

  /** No id has two entries. */
  ghost predicate OnePerId(q: multiset<Entry>) {
    && (forall e :: e in q ==> q[e] == 1)
    && (forall e, f :: e in q && f in q && e.id == f.id ==> e == f)
  }

  ghost predicate NoRepeats(ids: seq<Id>) {
    forall i, j :: 0 <= i < j < |ids| ==> ids[i] != ids[j]
  }

  /** The alarm fires when the next active order falls due: at once if one is due already, at the
      time its hazard is reached otherwise, and never without a positive rate or an active order. */
  ghost predicate AlarmExact(q: multiset<Entry>, active: set<Id>, h: real, rate: real, alarm: Alarm) {
    match alarm
    case NoAlarm => rate <= 0.0 || active == {}
    case FireNow => rate > 0.0 && exists id :: id in active && Due(q, id, h)
    case FireIn(delay) =>
      && rate > 0.0 && delay > 0.0
      && (exists id :: id in active && Due(q, id, h + rate * delay))
      && forall id, level :: id in active && Due(q, id, level) ==> h + rate * delay <= level
  }

  /** q' lost only entries of ids that are not active. */
  ghost predicate Pruned(q: multiset<Entry>, q': multiset<Entry>, active: set<Id>) {
    q' <= q && forall e :: e in q && e.id in active ==> q'[e] == q[e]
  }

  /** Hazard accrues at the cancel rate, from the second update on. */
  function HazardAfter(h: real, started: bool, rate: real, elapsed: real): real {
    if started && rate > 0.0 then h + rate * elapsed else h
  }

  /** How long the hazard takes to grow by an amount. */
  function TimeFor(amount: real, rate: real): real
    requires rate > 0.0
  {
    amount / rate
  }

  /** The orders fired are the active orders due at hazard h, and the others stay active. */
  ghost predicate FiredExactly(q: multiset<Entry>, active: set<Id>, h: real, rate: real, fired: seq<Id>,
                               active': set<Id>) {
    && (forall id :: id in fired <==> id in active && rate > 0.0 && Due(q, id, h))
    && (forall id :: id in active' <==> id in active && id !in fired)
  }

  /** In the middle of a firing. */
  ghost predicate Firing(q: multiset<Entry>, active: set<Id>, h: real, q': multiset<Entry>, active': set<Id>,
                         fired: seq<Id>) {
    && Pruned(q, q', active')
    && (forall id :: id in active' <==> id in active && id !in fired)
    && (forall i :: 0 <= i < |fired| ==> fired[i] in active && Due(q, fired[i], h))
    && NoRepeats(fired)
  }

  /** Every active order has an entry; if the exchange never reuses an id it has exactly one, and no
      order is cancelled twice. */
  ghost predicate Consistent(q: multiset<Entry>, active: set<Id>, acknowledged: set<Id>, cancels: seq<Id>,
                             reused: bool) {
    && (forall e :: e in q ==> e.id in acknowledged)
    && (forall id :: id in active ==> id in acknowledged && HasEntry(q, id))
    && (forall i :: 0 <= i < |cancels| ==> cancels[i] in acknowledged)
    && (!reused ==> OnePerId(q) && NoRepeats(cancels) && forall i :: 0 <= i < |cancels| ==> cancels[i] !in active)
  }

  class OrderManager {
    var cumulativeHazard: real
    var lambdaCancel: real
    var started: bool
    var expiryQueue: multiset<Entry>
    var activeOrders: set<Id>
    var pendingInserts: map<Id, real>
    var cancels: seq<Id>
    var alarm: Alarm

    /** Every exchange id acknowledged so far, and whether one came twice. */
    ghost var acknowledged: set<Id>
    ghost var reused: bool

    /** The queue, the active orders and the cancels agree, and an alarm is set while an order could
        fall due. */
    ghost predicate Valid()
      reads this
    {
      && Consistent(expiryQueue, activeOrders, acknowledged, cancels, reused)
      && (lambdaCancel > 0.0 && activeOrders != {} ==> alarm != NoAlarm)
    }

    constructor ()
      ensures Valid() && !reused && activeOrders == {} && expiryQueue == multiset{} && cancels == []
      ensures cumulativeHazard == lambdaCancel == 0.0 && alarm == NoAlarm
    {
      cumulativeHazard, lambdaCancel, started := 0.0, 0.0, false;
      expiryQueue, activeOrders, pendingInserts := multiset{}, {}, map[];
      cancels, alarm := [], NoAlarm;
      acknowledged, reused := {}, false;
    }

    /** Account for the time since the last update. */
    method AdvanceHazard(elapsed: real)
      requires elapsed >= 0.0
      modifies this`cumulativeHazard, this`started
      ensures cumulativeHazard == HazardAfter(old(cumulativeHazard), old(started), lambdaCancel, elapsed)
      ensures old(started) && lambdaCancel > 0.0 ==> cumulativeHazard == old(cumulativeHazard) + lambdaCancel * elapsed
      ensures !old(started) || lambdaCancel <= 0.0 ==> cumulativeHazard == old(cumulativeHazard)
      ensures started
    {
      if started && lambdaCancel > 0.0 {
        cumulativeHazard := cumulativeHazard + lambdaCancel * elapsed;
      }
      started := true;
    }

    /** Remove dead entries until the top of the queue is live. */
    method PruneTop()
      modifies this`expiryQueue
      ensures Pruned(old(expiryQueue), expiryQueue, activeOrders)
      ensures expiryQueue != multiset{} ==> TopLive(expiryQueue, activeOrders)
    {
      while expiryQueue != multiset{}
        invariant Pruned(old(expiryQueue), expiryQueue, activeOrders)
        decreases |expiryQueue|
      {
        var top := Top(expiryQueue, Threshold);
        if top.id in activeOrders {
          return;
        }
        expiryQueue := expiryQueue - multiset{top};
      }
    }

    method RegisterPendingInsert(clientId: Id, threshold: real)
      requires Valid()
      modifies this`pendingInserts
      ensures Valid() && pendingInserts == old(pendingInserts)[clientId := threshold]
    {
      pendingInserts := pendingInserts[clientId := threshold];
    }

    /** Set the alarm for the next active order to fall due. */
    method RescheduleNextExpiry(elapsed: real)
      requires elapsed >= 0.0
      requires forall id :: id in activeOrders ==> HasEntry(expiryQueue, id)
      modifies this`cumulativeHazard, this`started, this`expiryQueue, this`alarm
      ensures started && cumulativeHazard == HazardAfter(old(cumulativeHazard), old(started), lambdaCancel, elapsed)
      ensures Pruned(old(expiryQueue), expiryQueue, activeOrders)
      ensures AlarmExact(expiryQueue, activeOrders, cumulativeHazard, lambdaCancel, alarm)
    {
      hide AlarmExact, Pruned, HasEntry, HazardAfter, TimeFor, Least, TopLive;
      alarm := NoAlarm;
      AdvanceHazard(elapsed);
      KeptWhole(expiryQueue, activeOrders, cumulativeHazard, lambdaCancel);
      if lambdaCancel <= 0.0 {
        return;
      }
      PruneTop();
      PrunedEntries(old(expiryQueue), expiryQueue, activeOrders);
      if expiryQueue == multiset{} {
        NoEntryNoOrder(activeOrders);
        return;
      }
      var next := Top(expiryQueue, Threshold);
      var remaining := next.threshold - cumulativeHazard;
      if remaining <= 0.0 {
        alarm := FireNow;
      } else {
        alarm := FireIn(TimeFor(remaining, lambdaCancel));
      }
      NextAlarm(expiryQueue, activeOrders, cumulativeHazard, lambdaCancel, next);
    }

    /** A new active order with its entry. */
    method Activate(entry: Entry)
      requires Consistent(expiryQueue, activeOrders, acknowledged, cancels, reused)
      modifies this`activeOrders, this`expiryQueue, this`acknowledged, this`reused
      ensures Consistent(expiryQueue, activeOrders, acknowledged, cancels, reused)
      ensures activeOrders == old(activeOrders) + {entry.id} && expiryQueue == old(expiryQueue) + multiset{entry}
      ensures reused == (old(reused) || entry.id in old(acknowledged))
      ensures acknowledged == old(acknowledged) + {entry.id}
    {
      hide Consistent;
      ConsistentPush(expiryQueue, activeOrders, acknowledged, cancels, reused, entry);
      activeOrders := activeOrders + {entry.id};
      expiryQueue := expiryQueue + multiset{entry};
      reused := reused || entry.id in acknowledged;
      acknowledged := acknowledged + {entry.id};
    }

    /** The exchange accepted an order that was sent: it is active from now on. */
    method OnInsertAcknowledged(clientId: Id, exchangeId: Id, elapsed: real)
      requires Valid() && elapsed >= 0.0
      modifies this
      ensures Valid() && lambdaCancel == old(lambdaCancel) && cancels == old(cancels)
      ensures clientId !in old(pendingInserts) ==>
                unchanged(this)
      ensures clientId in old(pendingInserts) ==>
                && pendingInserts == old(pendingInserts) - {clientId}
                && activeOrders == old(activeOrders) + {exchangeId}
                && reused == (old(reused) || exchangeId in old(acknowledged))
                && acknowledged == old(acknowledged) + {exchangeId}
                && Pruned(old(expiryQueue) + multiset{Entry(old(pendingInserts)[clientId], exchangeId)}, expiryQueue,
                          activeOrders)
                && AlarmExact(expiryQueue, activeOrders, cumulativeHazard, lambdaCancel, alarm)
    {
      hide Consistent, Pruned, AlarmExact, HasEntry;
      if clientId !in pendingInserts {
        return;
      }
      var threshold := pendingInserts[clientId];
      pendingInserts := pendingInserts - {clientId};
      Activate(Entry(threshold, exchangeId));
      ghost var full := expiryQueue;
      ConsistentLive(full, activeOrders, acknowledged, cancels, reused);
      RescheduleNextExpiry(elapsed);
      AlarmSet(expiryQueue, activeOrders, cumulativeHazard, lambdaCancel, alarm);
      ConsistentPrune(full, expiryQueue, activeOrders, acknowledged, cancels, reused);
    }

    /** A fill that leaves nothing makes the order inactive; its entry stays behind. */
    method OnPartialFill(exchangeId: Id, leaves: nat)
      requires Valid()
      modifies this`activeOrders
      ensures Valid()
      ensures activeOrders == if leaves > 0 then old(activeOrders) else old(activeOrders) - {exchangeId}
    {
      if leaves > 0 {
        return;
      }
      activeOrders := activeOrders - {exchangeId};
    }

    /** The hazard up to now accrues at the old rate. */
    method UpdateCancelRate(lambda: real, elapsed: real, elapsedAgain: real)
      requires Valid() && elapsed >= 0.0 && elapsedAgain >= 0.0
      modifies this`cumulativeHazard, this`started, this`lambdaCancel, this`expiryQueue, this`alarm
      ensures Valid() && lambdaCancel == lambda
      ensures cumulativeHazard ==
              HazardAfter(HazardAfter(old(cumulativeHazard), old(started), old(lambdaCancel), elapsed), true, lambda,
                          elapsedAgain)
      ensures Pruned(old(expiryQueue), expiryQueue, activeOrders)
      ensures AlarmExact(expiryQueue, activeOrders, cumulativeHazard, lambdaCancel, alarm)
    {
      hide Consistent, Pruned, AlarmExact, HasEntry, HazardAfter;
      ConsistentLive(expiryQueue, activeOrders, acknowledged, cancels, reused);
      AdvanceHazard(elapsed);
      lambdaCancel := lambda;
      RescheduleNextExpiry(elapsedAgain);
      AlarmSet(expiryQueue, activeOrders, cumulativeHazard, lambdaCancel, alarm);
      ConsistentPrune(old(expiryQueue), expiryQueue, activeOrders, acknowledged, cancels, reused);
    }

    /** Pop the top entry and cancel its order if it is still active. */
    method PopDue(top: Entry) returns (cancelled: seq<Id>)
      requires top in expiryQueue
      modifies this`expiryQueue, this`activeOrders, this`cancels
      ensures expiryQueue == old(expiryQueue) - multiset{top}
      ensures activeOrders == old(activeOrders) - {top.id}
      ensures cancelled == if top.id in old(activeOrders) then [top.id] else []
      ensures cancels == old(cancels) + cancelled
    {
      cancelled := [];
      expiryQueue := expiryQueue - multiset{top};
      if top.id !in activeOrders {
        return;
      }
      activeOrders := activeOrders - {top.id};
      cancelled := [top.id];
      cancels := cancels + cancelled;
    }

    /** One turn of the firing loop. */
    method FireTop(top: Entry, ghost before: multiset<Entry>, ghost live: set<Id>, ghost fired: seq<Id>)
          returns (cancelled: seq<Id>)
      requires top in expiryQueue && top.threshold <= cumulativeHazard
      requires Firing(before, live, cumulativeHazard, expiryQueue, activeOrders, fired)
      modifies this`expiryQueue, this`activeOrders, this`cancels
      ensures Firing(before, live, cumulativeHazard, expiryQueue, activeOrders, fired + cancelled)
      ensures |expiryQueue| < |old(expiryQueue)|
      ensures cancels == old(cancels) + cancelled
    {
      hide Firing, Pruned, Due, TopLive;
      FiringStep(before, live, cumulativeHazard, expiryQueue, activeOrders, fired, top);
      cancelled := PopDue(top);
      ghost var popped := expiryQueue;
      PruneTop();
      FiringPrune(before, live, cumulativeHazard, popped, expiryQueue, activeOrders, fired + cancelled);
    }

    /** Pop entries while the top one is due, cancelling those whose order is active. */
    method FireDue() returns (fired: seq<Id>)
      modifies this`expiryQueue, this`activeOrders, this`cancels
      ensures Firing(old(expiryQueue), old(activeOrders), cumulativeHazard, expiryQueue, activeOrders, fired)
      ensures cancels == old(cancels) + fired
      ensures forall e :: e in expiryQueue ==> e.threshold > cumulativeHazard
    {
      hide Firing, Pruned, Due, TopLive;
      fired := [];
      ghost var before, live := expiryQueue, activeOrders;
      FiringStart(before, live, cumulativeHazard);
      PruneTop();
      FiringPrune(before, live, cumulativeHazard, before, expiryQueue, activeOrders, fired);
      while expiryQueue != multiset{}
        invariant Firing(before, live, cumulativeHazard, expiryQueue, activeOrders, fired)
        invariant cancels == old(cancels) + fired
        decreases |expiryQueue|
      {
        var top := Top(expiryQueue, Threshold);
        if top.threshold > cumulativeHazard {
          break;
        }
        var cancelled := FireTop(top, before, live, fired);
        fired := fired + cancelled;
      }
    }

    /** Cancel every active order that is due, once each, and nothing else. */
    method FireNextExpiry(aborted: bool, elapsed: real, elapsedAgain: real) returns (fired: seq<Id>)
      requires Valid() && elapsed >= 0.0 && elapsedAgain >= 0.0
      modifies this`cumulativeHazard, this`started, this`expiryQueue, this`activeOrders, this`cancels, this`alarm
      ensures Valid()
      ensures cancels == old(cancels) + fired && NoRepeats(fired)
      ensures aborted ==> unchanged(this)
      ensures !aborted ==>
                var h := HazardAfter(old(cumulativeHazard), old(started), lambdaCancel, elapsed);
                && FiredExactly(old(expiryQueue), old(activeOrders), h, lambdaCancel, fired, activeOrders)
                && (lambdaCancel > 0.0 ==> forall id :: id in activeOrders ==> !Due(expiryQueue, id, h))
      ensures !aborted && lambdaCancel > 0.0 ==>
                AlarmExact(expiryQueue, activeOrders, cumulativeHazard, lambdaCancel, alarm)
    {
      hide Consistent, Firing, FiredExactly, Pruned, AlarmExact, HasEntry, NoRepeats;
      fired := [];
      if aborted {
        NothingFired(expiryQueue, activeOrders, 0.0, 0.0);
        return;
      }
      AdvanceHazard(elapsed);
      ghost var before, live := expiryQueue, activeOrders;
      if lambdaCancel <= 0.0 {
        NothingFired(before, live, cumulativeHazard, lambdaCancel);
        return;
      }
      fired := FireDue();
      FiringDone(before, live, cumulativeHazard, lambdaCancel, expiryQueue, activeOrders, fired);
      ConsistentFire(before, live, cumulativeHazard, expiryQueue, activeOrders, fired, acknowledged, old(cancels),
                     reused);
      ConsistentLive(expiryQueue, activeOrders, acknowledged, cancels, reused);
      ghost var h, q1 := cumulativeHazard, expiryQueue;
      RescheduleNextExpiry(elapsedAgain);
      AlarmSet(expiryQueue, activeOrders, cumulativeHazard, lambdaCancel, alarm);
      ConsistentPrune(q1, expiryQueue, activeOrders, acknowledged, cancels, reused);
      NoneDue(q1, expiryQueue, activeOrders, h);
    }

    /** An alarm that runs its delay cancels the orders it was set for: exactly those whose threshold is
        reached at the cancel rate in that time, at least one, and none could have been due before. */
    method FireOnTime(delay: real, again: real) returns (fired: seq<Id>)
      requires Valid() && started && alarm == FireIn(delay) && again >= 0.0
      requires AlarmExact(expiryQueue, activeOrders, cumulativeHazard, lambdaCancel, alarm)
      modifies this`cumulativeHazard, this`started, this`expiryQueue, this`activeOrders, this`cancels, this`alarm
      ensures Valid() && fired != []
      ensures var h := old(cumulativeHazard) + lambdaCancel * delay;
              && (forall id :: id in fired <==> id in old(activeOrders) && Due(old(expiryQueue), id, h))
              && (forall id, level :: id in old(activeOrders) && Due(old(expiryQueue), id, level) ==> h <= level)
    {
      hide Consistent, Due;
      ghost var h := cumulativeHazard + lambdaCancel * delay;
      ghost var first :| first in activeOrders && Due(expiryQueue, first, h);
      fired := FireNextExpiry(false, delay, again);
      assert first in fired;
    }
  }

  /** Popping a due entry, whether its order is active or not. */
  lemma FiringStep(q: multiset<Entry>, active: set<Id>, h: real, q': multiset<Entry>, active': set<Id>,
                   fired: seq<Id>, top: Entry)
    requires Firing(q, active, h, q', active', fired) && top in q' && top.threshold <= h
    ensures Firing(q, active, h, q' - multiset{top}, active' - {top.id},
                   fired + if top.id in active' then [top.id] else [])
  {
  }

  lemma FiringPrune(q: multiset<Entry>, active: set<Id>, h: real, q1: multiset<Entry>, q2: multiset<Entry>,
                    active': set<Id>, fired: seq<Id>)
    requires Firing(q, active, h, q1, active', fired) && Pruned(q1, q2, active')
    ensures Firing(q, active, h, q2, active', fired) && |q2| <= |q1|
  {
    assert q1 == q2 + (q1 - q2);
    forall e | e in q && e.id in active' ensures q2[e] == q[e] {
      assert q1[e] == q[e];
    }
  }

  /** When nothing that remains is due, exactly the due orders were fired. */
  lemma FiringDone(q: multiset<Entry>, active: set<Id>, h: real, rate: real, q': multiset<Entry>, active': set<Id>,
                   fired: seq<Id>)
    requires Firing(q, active, h, q', active', fired)
    requires rate > 0.0 && forall e :: e in q' ==> e.threshold > h
    ensures FiredExactly(q, active, h, rate, fired, active') && NoRepeats(fired)
  {
  }

  lemma FiringStart(q: multiset<Entry>, active: set<Id>, h: real)
    ensures Firing(q, active, h, q, active, []) && NoRepeats([])
  {
  }

  lemma NothingFired(q: multiset<Entry>, active: set<Id>, h: real, rate: real)
    requires rate <= 0.0
    ensures FiredExactly(q, active, h, rate, [], active) && NoRepeats([])
  {
  }

  lemma NoneDue(q: multiset<Entry>, q': multiset<Entry>, active: set<Id>, h: real)
    requires Pruned(q, q', active) && forall e :: e in q ==> e.threshold > h
    ensures forall id :: id in active ==> !Due(q', id, h)
  {
  }

  lemma ConsistentLive(q: multiset<Entry>, active: set<Id>, acknowledged: set<Id>, cancels: seq<Id>, reused: bool)
    requires Consistent(q, active, acknowledged, cancels, reused)
    ensures forall id :: id in active ==> HasEntry(q, id)
  {
  }

  lemma ConsistentPrune(q: multiset<Entry>, q': multiset<Entry>, active: set<Id>, acknowledged: set<Id>,
                        cancels: seq<Id>, reused: bool)
    requires Consistent(q, active, acknowledged, cancels, reused) && Pruned(q, q', active)
    ensures Consistent(q', active, acknowledged, cancels, reused)
  {
  }

  lemma ConsistentPush(q: multiset<Entry>, active: set<Id>, acknowledged: set<Id>, cancels: seq<Id>, reused: bool,
                       entry: Entry)
    requires Consistent(q, active, acknowledged, cancels, reused)
    ensures Consistent(q + multiset{entry}, active + {entry.id}, acknowledged + {entry.id}, cancels,
                       reused || entry.id in acknowledged)
  {
  }

  lemma ConsistentFire(q: multiset<Entry>, active: set<Id>, h: real, q': multiset<Entry>, active': set<Id>,
                       fired: seq<Id>, acknowledged: set<Id>, cancels: seq<Id>, reused: bool)
    requires Consistent(q, active, acknowledged, cancels, reused) && Firing(q, active, h, q', active', fired)
    ensures Consistent(q', active', acknowledged, cancels + fired, reused)
  {
  }

  lemma KeptWhole(q: multiset<Entry>, active: set<Id>, h: real, rate: real)
    ensures Pruned(q, q, active)
    ensures rate <= 0.0 || active == {} ==> AlarmExact(q, active, h, rate, NoAlarm)
  {
  }

  lemma AlarmSet(q: multiset<Entry>, active: set<Id>, h: real, rate: real, alarm: Alarm)
    requires AlarmExact(q, active, h, rate, alarm)
    ensures rate > 0.0 && active != {} ==> alarm != NoAlarm
  {
  }

  lemma NoEntryNoOrder(active: set<Id>)
    requires forall id :: id in active ==> HasEntry(multiset{}, id)
    ensures active == {}
    ensures forall h, rate :: AlarmExact(multiset{}, active, h, rate, NoAlarm)
  {
  }

  /** The alarm computed from the least entry is the right one if that entry is live. */
  lemma NextAlarm(q: multiset<Entry>, active: set<Id>, h: real, rate: real, next: Entry)
    requires rate > 0.0 && Least(q, next, Threshold) && TopLive(q, active)
    ensures var remaining := next.threshold - h;
            AlarmExact(q, active, h, rate, if remaining <= 0.0 then FireNow else FireIn(TimeFor(remaining, rate)))
  {
  }

  lemma PrunedEntries(q: multiset<Entry>, q': multiset<Entry>, active: set<Id>)
    requires Pruned(q, q', active)
    ensures forall e :: e in q' ==> e in q
    ensures forall id :: id in active ==> (HasEntry(q, id) <==> HasEntry(q', id))
    ensures OnePerId(q) ==> OnePerId(q')
  {
  }
}
