/** The inbound path to the engine as interleaved steps of the I/O thread and the engine strand: when
    a non-empty inbox of a running exchange has a notification or an engine drain outstanding, and
    when it is stranded. */
module EngineInbox {

  const BUDGET: nat := 10000
  const INBOUND_Q_CAP: nat := 16384

  /** The I/O thread, on behalf of one connection at a time. */
  datatype Io =
    | Idle
    | Queued(conn: nat)       // frame pushed, ready flag to be taken
    | ReadyWon(conn: nat)     // ready flag taken, notification to be posted
    | Leaving(conn: nat)      // connection marked as lost, disconnect message to be pushed
    | Notifying               // drain flag to be taken
    | DrainWon                // drain flag taken, engine drain to be posted

  /** The engine strand. */
  datatype Engine =
    | Resting
    | Popping(budget: nat)
    | Rechecking
    | Rescheduling            // more messages seen, drain flag to be taken
    | RescheduleWon           // drain flag taken, engine drain to be posted

  datatype State<M> = State(
    inbox: seq<M>,
    ready: set<nat>,             // connections whose ready flag is set
    notifications: multiset<nat>,
    gone: set<nat>,              // connections that are lost
    late: set<nat>,              // lost connections with a completed read still to be handled
    drainFlag: bool,
    drains: nat,
    io: Io,
    engine: Engine,
    dispatched: seq<M>,
    pushed: seq<M>)

  ghost predicate Init<M>(s: State<M>) {
    s == State([], {}, multiset{}, {}, {}, false, 0, Idle, Resting, [], [])
  }

  function Push<M>(s: State<M>, m: M): State<M> {
    s.(inbox := s.inbox + [m], pushed := s.pushed + [m])
  }

  /** Some message is pushed, and the I/O thread goes on to `io`. */
  ghost predicate Pushes<M>(s: State<M>, io: Io, s': State<M>) {
    && |s.inbox| < INBOUND_Q_CAP
    && s'.inbox != []
    && s' == Push(s, s'.inbox[|s'.inbox| - 1]).(io := io)
  }

  /** A frame arrives: of an open connection, or of the last read of a lost one. */
  ghost predicate Arrives<M>(s: State<M>, s': State<M>) {
    s'.io.Queued? && (s'.io.conn !in s.gone || s'.io.conn in s.late) && Pushes(s, s'.io, s')
  }

  /** The last read of a lost connection has been handled. */
  ghost predicate Ends<M>(s: State<M>, s': State<M>) {
    exists c: nat :: c in s.late && s' == s.(late := s.late - {c})
  }

  /** A connection is lost: its frame was refused by a full inbox, or its socket failed. */
  ghost predicate Loses<M>(s: State<M>, s': State<M>) {
    && s.io.Idle? && s'.io.Leaving? && s'.io.conn !in s.gone
    && s' == s.(gone := s.gone + {s'.io.conn}, late := s'.late, io := s'.io)
    && (s'.late == s.late || s'.late == s.late + {s'.io.conn})
  }

  ghost predicate IoStep<M>(s: State<M>, s': State<M>) {
    match s.io
    case Idle =>
      || Arrives(s, s')
      || Loses(s, s')
      || Ends(s, s')
      || (exists c: nat :: c in s.notifications && s' == Notified(s, c))
    case Queued(c) =>
      s' == if c in s.ready then s.(io := Idle) else s.(ready := s.ready + {c}, io := ReadyWon(c))
    case ReadyWon(c) =>
      s' == s.(notifications := s.notifications + multiset{c}, io := Idle)
    case Leaving(c) =>
      if |s.inbox| < INBOUND_Q_CAP then Pushes(s, Notifying, s')
      else s' == s.(io := Idle)
    case Notifying =>
      s' == if s.drainFlag then s.(io := Idle) else s.(drainFlag := true, io := DrainWon)
    case DrainWon =>
      s' == s.(drains := s.drains + 1, io := Idle)
  }

  /** A posted notification runs: that of a lost connection only clears its flag. */
  function Notified<M>(s: State<M>, c: nat): State<M> {
    s.(notifications := s.notifications - multiset{c}, ready := s.ready - {c},
       io := if c in s.gone then Idle else Notifying)
  }

  ghost predicate EngineStep<M>(s: State<M>, s': State<M>) {
    match s.engine
    case Resting =>
      0 < s.drains && s' == s.(drains := s.drains - 1, drainFlag := false, engine := Popping(BUDGET))
    case Popping(budget) =>
      s' == if budget == 0 || s.inbox == [] then s.(engine := Rechecking)
            else s.(inbox := s.inbox[1..], dispatched := s.dispatched + [s.inbox[0]], engine := Popping(budget - 1))
    case Rechecking =>
      s' == if s.inbox != [] then s.(engine := Rescheduling) else s.(engine := Resting)
    case Rescheduling =>
      s' == if s.drainFlag then s.(engine := Resting) else s.(drainFlag := true, engine := RescheduleWon)
    case RescheduleWon =>
      s' == s.(drains := s.drains + 1, engine := Resting)
  }

  ghost predicate Step<M>(s: State<M>, s': State<M>) {
    IoStep(s, s') || EngineStep(s, s')
  }

  // ----- Invariants -----

  function Count(b: bool): nat {
    if b then 1 else 0
  }

  /** Each raised flag has exactly one task posted or about to be; messages leave in order. */
  ghost predicate Inv<M>(s: State<M>) {
    && (forall c: nat :: s.notifications[c] == Count(c in s.ready && s.io != ReadyWon(c)))
    && s.drains + Count(s.io.DrainWon?) + Count(s.engine.RescheduleWon?) == Count(s.drainFlag)
    && (s.io.ReadyWon? ==> s.io.conn in s.ready)
    && |s.inbox| <= INBOUND_Q_CAP
    && s.pushed == s.dispatched + s.inbox
  }

  /** Somebody will look at the inbox again: a notification of an open connection or an engine drain
      is outstanding, or a step that leads to one is under way. */
  ghost predicate Live<M>(s: State<M>) {
    || ((s.io.Queued? || s.io.ReadyWon?) && s.io.conn !in s.gone)
    || s.io.Notifying? || s.io.DrainWon?
    || (s.io.Leaving? && |s.inbox| < INBOUND_Q_CAP)
    || (exists c :: c in s.ready && c !in s.gone)
    || s.drainFlag
    || !s.engine.Resting?
  }

  ghost predicate Attended<M>(s: State<M>) {
    s.inbox != [] ==> Live(s)
  }

  /** The engine rests with no drain outstanding, and every connection with a notification
      outstanding is in `lost`. */
  ghost predicate Asleep<M>(s: State<M>, lost: set<nat>) {
    !s.drainFlag && s.engine.Resting? && s.ready <= lost
  }

  /** A connection is lost while the inbox is full, and nobody else wakes the engine. */
  ghost predicate Jams<M>(s: State<M>, s': State<M>) {
    Loses(s, s') && |s.inbox| == INBOUND_Q_CAP && Asleep(s, s'.gone)
  }

  /** A late frame of a lost connection arrives, and nobody else wakes the engine. */
  ghost predicate Dangles<M>(s: State<M>, s': State<M>) {
    Arrives(s, s') && s'.io.conn in s.gone && Asleep(s, s.gone)
  }

  ghost predicate Strands<M>(s: State<M>, s': State<M>) {
    s.io.Idle? && (Jams(s, s') || Dangles(s, s'))
  }

  lemma ArrivesKeeps<M>(s: State<M>, s': State<M>)
    requires Inv(s) && s.io.Idle? && Arrives(s, s')
    ensures Inv(s')
  {
    assert s'.pushed == s.dispatched + s.inbox + [s'.inbox[|s'.inbox| - 1]];
  }

  lemma LosesKeeps<M>(s: State<M>, s': State<M>)
    requires Inv(s) && Loses(s, s')
    ensures Inv(s')
  {
  }

  lemma EndsKeeps<M>(s: State<M>, s': State<M>)
    requires Ends(s, s')
    ensures Inv(s) ==> Inv(s')
    ensures Live(s) <==> Live(s')
    ensures s'.inbox == s.inbox && s'.dispatched == s.dispatched && s'.io == s.io
  {
  }

  lemma NotifiedKeeps<M>(s: State<M>, c: nat)
    requires Inv(s) && s.io.Idle? && c in s.notifications
    ensures Inv(Notified(s, c)) && c in s.ready
  {
    assert s.notifications[c] > 0;
  }

  lemma LeavingKeeps<M>(s: State<M>, s': State<M>)
    requires Inv(s) && s.io.Leaving? && IoStep(s, s')
    ensures Inv(s')
  {
    if |s.inbox| < INBOUND_Q_CAP {
      assert s'.pushed == s.dispatched + s.inbox + [s'.inbox[|s'.inbox| - 1]];
    }
  }

  lemma FlagsKeep<M>(s: State<M>, s': State<M>)
    requires Inv(s) && IoStep(s, s') && !s.io.Idle? && !s.io.Leaving?
    ensures Inv(s')
  {
  }

  lemma IoKeeps<M>(s: State<M>, s': State<M>)
    requires Inv(s) && IoStep(s, s')
    ensures Inv(s')
  {
    hide Inv, Arrives, Loses, Ends;
    if s.io.Leaving? {
      LeavingKeeps(s, s');
    } else if !s.io.Idle? {
      FlagsKeep(s, s');
    } else if Arrives(s, s') {
      ArrivesKeeps(s, s');
    } else if Loses(s, s') {
      LosesKeeps(s, s');
    } else if Ends(s, s') {
      EndsKeeps(s, s');
    } else {
      var c: nat :| c in s.notifications && s' == Notified(s, c);
      NotifiedKeeps(s, c);
    }
  }

  lemma EngineKeeps<M>(s: State<M>, s': State<M>)
    requires Inv(s) && EngineStep(s, s')
    ensures Inv(s')
  {
  }

  lemma LosesAttended<M>(s: State<M>, s': State<M>)
    requires Attended(s) && Loses(s, s') && |s.inbox| <= INBOUND_Q_CAP
    ensures Attended(s') <==> !Strands(s, s')
  {
    if !(s.ready <= s'.gone) {
      var d :| d in s.ready && d !in s'.gone;
      assert d in s'.ready && d !in s'.gone;
    }
  }

  lemma NotifiedAttended<M>(s: State<M>, c: nat)
    requires Inv(s) && Attended(s) && s.io.Idle? && c in s.notifications
    ensures Attended(Notified(s, c)) && !Strands(s, Notified(s, c))
  {
    NotifiedKeeps(s, c);
    var s' := Notified(s, c);
    if d :| d in s.ready && d !in s.gone && d != c {
      assert d in s'.ready && d !in s'.gone;
    }
  }

  lemma OtherAttended<M>(s: State<M>, s': State<M>)
    requires Inv(s) && Attended(s) && IoStep(s, s') && !s.io.Idle?
    ensures Attended(s') && !Strands(s, s')
  {
    if (s.io.Queued? || s.io.ReadyWon?) && s.io.conn !in s.gone {
      assert s.io.conn in s'.ready && s.io.conn !in s'.gone;
    } else if d :| d in s.ready && d !in s.gone {
      assert d in s'.ready && d !in s'.gone;
    }
  }

  lemma InboxBound<M>(s: State<M>)
    requires Inv(s)
    ensures |s.inbox| <= INBOUND_Q_CAP
  {
  }

  lemma IoAttended<M>(s: State<M>, s': State<M>)
    requires Inv(s) && Attended(s) && IoStep(s, s')
    ensures Attended(s') <==> !Strands(s, s')
  {
    hide Attended, Strands, Arrives, Loses, Ends;
    InboxBound(s);
    if !s.io.Idle? {
      OtherAttended(s, s');
    } else if Loses(s, s') {
      LosesAttended(s, s');
    } else if Arrives(s, s') {
      ArrivesAttended(s, s');
    } else if Ends(s, s') {
      EndsAttended(s, s');
    } else {
      var c: nat :| c in s.notifications && s' == Notified(s, c);
      NotifiedAttended(s, c);
    }
  }

  lemma ArrivesAttended<M>(s: State<M>, s': State<M>)
    requires s.io.Idle? && Arrives(s, s')
    ensures Attended(s') <==> !Strands(s, s')
  {
    if !(s.ready <= s.gone) {
      var d :| d in s.ready && d !in s.gone;
      assert d in s'.ready && d !in s'.gone;
    }
  }

  lemma EndsAttended<M>(s: State<M>, s': State<M>)
    requires Attended(s) && Ends(s, s') && s.io.Idle?
    ensures Attended(s') && !Strands(s, s')
  {
    EndsKeeps(s, s');
  }

  lemma EngineAttended<M>(s: State<M>, s': State<M>)
    requires Inv(s) && Attended(s) && EngineStep(s, s')
    ensures Attended(s') && !Strands(s, s')
  {
    if exists c :: c in s.ready && c !in s.gone {
      var c :| c in s.ready && c !in s.gone;
      assert c in s'.ready && c !in s'.gone;
    }
  }

  /** Every step keeps the flags backed and, unless it strands the inbox, keeps it attended. */
  lemma StepAttended<M>(s: State<M>, s': State<M>)
    requires Inv(s) && Attended(s) && Step(s, s')
    ensures Inv(s')
    ensures Attended(s') <==> !Strands(s, s')
  {
    hide Inv, Attended, Strands;
    if IoStep(s, s') {
      IoKeeps(s, s');
      IoAttended(s, s');
    } else {
      EngineKeeps(s, s');
      EngineAttended(s, s');
    }
  }

  // ----- Runs -----

  ghost predicate IsRun<M>(states: seq<State<M>>) {
    && |states| > 0
    && Init(states[0])
    && forall i, j :: 0 <= i < j < |states| && j == i + 1 ==> Step(states[i], states[j])
  }

  /** In every reachable state of every interleaving, lost connections and refused pushes included,
      each raised flag has its task posted, and the engine has dispatched exactly the messages pushed
      before those still queued, in order. */
  lemma {:induction false} RunInbox<M>(states: seq<State<M>>, n: nat)
    requires IsRun(states) && n < |states|
    ensures Inv(states[n])
  {
    hide IoStep, EngineStep;
    if n != 0 {
      RunInbox(states, n - 1);
      assert Step(states[n - 1], states[n]);
      if IoStep(states[n - 1], states[n]) {
        IoKeeps(states[n - 1], states[n]);
      } else {
        EngineKeeps(states[n - 1], states[n]);
      }
    }
  }

  /** Step i of the run strands the inbox. */
  ghost predicate StrandsAt<M>(states: seq<State<M>>, i: int) {
    0 <= i < |states| - 1 && Strands(states[i], states[i + 1])
  }

  ghost predicate JamsAt<M>(states: seq<State<M>>, i: int) {
    0 <= i < |states| - 1 && Jams(states[i], states[i + 1])
  }

  /** A non-empty inbox is attended throughout a run if and only if no step of the run strands it. */
  lemma RunAttended<M>(states: seq<State<M>>)
    requires IsRun(states)
    ensures (forall n :: 0 <= n < |states| ==> Attended(states[n])) <==> (forall i :: !StrandsAt(states, i))
  {
    hide Inv, Attended, Strands, Step;
    if forall i :: !StrandsAt(states, i) {
      forall n | 0 <= n < |states| ensures Attended(states[n]) {
        AttendedTo(states, n);
      }
    }
    if forall n :: 0 <= n < |states| ==> Attended(states[n]) {
      forall i | 0 <= i < |states| - 1 ensures !StrandsAt(states, i) {
        RunInbox(states, i);
        assert Step(states[i], states[i + 1]);
        StepAttended(states[i], states[i + 1]);
      }
    }
  }

  lemma {:induction false} AttendedTo<M>(states: seq<State<M>>, n: nat)
    requires IsRun(states) && n < |states| && forall i :: !StrandsAt(states, i)
    ensures Attended(states[n])
  {
    hide Inv, Strands, Step;
    if n != 0 {
      AttendedTo(states, n - 1);
      RunInbox(states, n - 1);
      assert !StrandsAt(states, n - 1);
      assert Step(states[n - 1], states[n]);
      StepAttended(states[n - 1], states[n]);
    }
  }

  // ----- A stranded inbox -----

  ghost predicate Stuck<M>(s: State<M>) {
    Inv(s) && !Live(s) && |s.inbox| == INBOUND_Q_CAP && (s.io.Idle? || s.io.Leaving?)
  }

  lemma StuckRests<M>(s: State<M>)
    requires Stuck(s)
    ensures s.drains == 0 && s.engine.Resting? && (s.io.Idle? || s.io.Leaving?)
  {
  }

  lemma StuckStep<M>(s: State<M>, s': State<M>)
    requires Stuck(s) && Step(s, s')
    ensures Stuck(s') && s'.inbox == s.inbox && s'.dispatched == s.dispatched
  {
    hide Inv, Arrives, Loses, Ends;
    StuckRests(s);
    IoKeeps(s, s');
    if s.io.Leaving? {
      StuckLeaves(s, s');
    } else if Ends(s, s') {
      EndsKeeps(s, s');
    } else if Loses(s, s') {
      StuckLoses(s, s');
    } else if Arrives(s, s') {
      ArrivesFits(s, s');
    } else {
      var c: nat :| c in s.notifications && s' == Notified(s, c);
      NotifiedKeeps(s, c);
      StuckNotified(s, c);
    }
  }

  lemma StuckLeaves<M>(s: State<M>, s': State<M>)
    requires Stuck(s) && s.io.Leaving? && IoStep(s, s')
    ensures !Live(s') && s'.io.Idle? && s'.inbox == s.inbox && s'.dispatched == s.dispatched
  {
  }

  lemma StuckLoses<M>(s: State<M>, s': State<M>)
    requires !Live(s) && |s.inbox| == INBOUND_Q_CAP && Loses(s, s')
    ensures !Live(s') && s'.io.Leaving? && s'.inbox == s.inbox && s'.dispatched == s.dispatched
  {
  }

  lemma StuckNotified<M>(s: State<M>, c: nat)
    requires !Live(s) && s.io.Idle? && c in s.ready
    ensures !Live(Notified(s, c)) && Notified(s, c).io.Idle?
  {
  }

  lemma ArrivesFits<M>(s: State<M>, s': State<M>)
    requires Arrives(s, s')
    ensures |s.inbox| < INBOUND_Q_CAP
  {
  }

  /** An inbox stranded by a lost connection stays full for ever, and nothing is dispatched again. */
  lemma {:induction false} StrandedForGood<M>(states: seq<State<M>>, i: nat, n: nat)
    requires IsRun(states) && JamsAt(states, i) && i < n < |states|
    ensures Stuck(states[n]) && states[n].inbox == states[i].inbox && states[n].dispatched == states[i].dispatched
    decreases n
  {
    hide Step, Stuck;
    if n == i + 1 {
      RunInbox(states, n);
      JamsStuck(states[i], states[n]);
    } else {
      StrandedForGood(states, i, n - 1);
      assert Step(states[n - 1], states[n]);
      StuckStep(states[n - 1], states[n]);
    }
  }

  lemma JamsStuck<M>(s: State<M>, s': State<M>)
    requires Inv(s') && Jams(s, s')
    ensures Stuck(s') && s'.inbox == s.inbox && s'.dispatched == s.dispatched
  {
  }

  /** Frames of connection 0 that nobody has looked at yet. */
  function Filled<M>(m: M, k: nat): State<M> {
    var frames := seq(k, _ => m);
    State(frames, if k == 0 then {} else {0}, if k == 0 then multiset{} else multiset{0}, {}, {},
          false, 0, Idle, Resting, [], frames)
  }

  lemma Extended<M>(states: seq<State<M>>, s: State<M>)
    requires IsRun(states) && Step(states[|states| - 1], s)
    ensures IsRun(states + [s])
  {
  }

  lemma {:induction false} FillRun<M>(m: M, k: nat) returns (states: seq<State<M>>)
    requires k <= INBOUND_Q_CAP
    ensures IsRun(states) && |states| > 0 && states[|states| - 1] == Filled(m, k)
  {
    hide IsRun, Step, Filled, Push;
    if k == 0 {
      states := [Filled(m, 0)];
      StartRun(m);
    } else {
      states := FillRun(m, k - 1);
      var pushed := Push(Filled(m, k - 1), m).(io := Queued(0));
      FilledStep(m, k - 1);
      states := Then(states, pushed);
      if k == 1 {
        states := Then(states, pushed.(ready := {0}, io := ReadyWon(0)));
      }
      states := Then(states, Filled(m, k));
    }
  }

  /** One more frame: push it, and take the ready flag if it is the first. */
  lemma FilledStep<M>(m: M, k: nat)
    requires k < INBOUND_Q_CAP
    ensures var pushed := Push(Filled(m, k), m).(io := Queued(0));
            && Step(Filled(m, k), pushed)
            && if k == 0 then
                 var won := pushed.(ready := {0}, io := ReadyWon(0));
                 Step(pushed, won) && Step(won, Filled(m, 1))
               else Step(pushed, Filled(m, k + 1))
  {
    var s := Filled(m, k);
    var pushed := Push(s, m).(io := Queued(0));
    assert Arrives(s, pushed);
    assert s.inbox + [m] == Filled(m, k + 1).inbox;
    if k == 0 {
      assert pushed.ready + {0} == {0};
      assert IoStep(pushed, pushed.(ready := {0}, io := ReadyWon(0)));
    }
  }

  lemma StartRun<M>(m: M)
    ensures IsRun([Filled(m, 0)])
  {
  }

  /** One connection that sends more frames than the inbox holds, before the engine looks, strands
      the inbox: it is disconnected, its disconnect message is refused too, and its notification no
      longer wakes the engine. */
  lemma FloodStrands<M>(m: M) returns (states: seq<State<M>>)
    ensures IsRun(states) && |states| > 1 && JamsAt(states, |states| - 2) && StrandsAt(states, |states| - 2)
  {
    hide IsRun;
    states := FillRun(m, INBOUND_Q_CAP);
    var s := Filled(m, INBOUND_Q_CAP);
    var s' := s.(gone := s.gone + {0}, io := Leaving(0));
    assert Loses(s, s') && Step(s, s');
    assert |states| > 0 by {
      RunStarts(states);
    }
    Extended(states, s');
    states := states + [s'];
    assert states[|states| - 2] == s && states[|states| - 1] == s';
  }

  lemma RunStarts<M>(states: seq<State<M>>)
    requires IsRun(states)
    ensures |states| > 0
  {
  }

  /** One step after another, from the last state of a run. */
  lemma Then<M>(states: seq<State<M>>, s: State<M>) returns (longer: seq<State<M>>)
    requires IsRun(states) && |states| > 0 && Step(states[|states| - 1], s)
    ensures IsRun(longer) && longer == states + [s]
  {
    Extended(states, s);
    longer := states + [s];
  }

  /** The disconnect message of connection 0 is pushed, drained and dispatched. */
  lemma LostRun<M>(m: M) returns (states: seq<State<M>>)
    ensures IsRun(states)
    ensures states[|states| - 1] == State([], {}, multiset{}, {0}, {0}, false, 0, Idle, Resting, [m], [m])
  {
    hide IsRun;
    var s0 := Filled(m, 0);
    StartRun(m);
    states := [s0];
    var s1 := s0.(gone := {0}, late := {0}, io := Leaving(0));
    assert s0.gone + {0} == {0} && s0.late + {0} == {0};
    assert Loses(s0, s1);
    states := Then(states, s1);
    var s2 := Push(s1, m).(io := Notifying);
    assert Pushes(s1, Notifying, s2);
    states := Then(states, s2);
    var s3 := s2.(drainFlag := true, io := DrainWon);
    states := Then(states, s3);
    var s4 := s3.(drains := 1, io := Idle);
    states := Then(states, s4);
    var s5 := s4.(drains := 0, drainFlag := false, engine := Popping(BUDGET));
    states := Then(states, s5);
    var s6 := s5.(inbox := [], dispatched := [m], engine := Popping(BUDGET - 1));
    assert s5.inbox[1..] == [] && s5.dispatched + [s5.inbox[0]] == [m];
    states := Then(states, s6);
    var s7 := s6.(engine := Rechecking);
    states := Then(states, s7);
    states := Then(states, s7.(engine := Resting));
  }

  /** A frame of a lost connection that was read before the loss strands an inbox that is not full:
      its notification does not wake the engine. */
  lemma LateFrameStrands<M>(m: M) returns (states: seq<State<M>>)
    ensures IsRun(states) && |states| > 1 && StrandsAt(states, |states| - 2)
    ensures |states[|states| - 1].inbox| == 1
  {
    hide IsRun;
    states := LostRun(m);
    RunStarts(states);
    var s := states[|states| - 1];
    var s' := Push(s, m).(io := Queued(0));
    assert Arrives(s, s');
    states := Then(states, s');
    assert states[|states| - 2] == s && states[|states| - 1] == s';
  }
}
