/** The outbound path of a connection as interleaved steps of the engine thread and the I/O strand:
    no byte is lost, reordered or duplicated, and no queued message is stranded. */
module WritePump {
  import opened Framing

  /** The engine inside send_message: not sending, message pushed, wakeup flag won. */
  datatype Engine = Quiet | Pushed | Won

  /** The I/O strand between and inside its handlers. */
  datatype Strand =
    | Free        // no handler is running
    | Checking    // drain_writes_: wakeup flag cleared
    | Filling     // drain_writes_: copying messages into the batch
    | Filled      // drain_writes_: batch closed
    | Finished    // handle_write_: batch written, about to look at the queue
    | Emptied     // handle_write_: queue seen empty, about to take the wakeup flag

  datatype State = State(
    queue: seq<Frame>,
    pending: bool,
    posted: nat,
    writing: bool,
    batch: seq<u8>,
    sent: nat,
    engine: Engine,
    strand: Strand,
    written: seq<u8>,
    accepted: seq<Frame>)

  ghost predicate Init(s: State) {
    s == State([], false, 0, false, [], 0, Quiet, Free, [], [])
  }

  /** Engine: push a message, take the wakeup flag, post a drain. */
  ghost predicate EngineStep(s: State, s': State) {
    match s.engine
    case Quiet =>
      exists m :: Buffered(m) && s' == s.(queue := s.queue + [m], accepted := s.accepted + [m], engine := Pushed)
    case Pushed =>
      s' == if s.pending then s.(engine := Quiet) else s.(pending := true, engine := Won)
    case Won =>
      s' == s.(posted := s.posted + 1, engine := Quiet)
  }

  /** I/O strand: run a posted drain or a write completion, one shared access at a time. */
  ghost predicate StrandStep(s: State, s': State) {
    match s.strand
    case Free =>
      || (0 < s.posted && s' == s.(posted := s.posted - 1, pending := false, strand := Checking))
      || (s.writing && exists n: nat :: Completes(s, n, s'))
    case Checking =>
      s' == if s.writing then s.(strand := Free) else s.(batch := [], sent := 0, strand := Filling)
    case Filling =>
      if s.queue == [] || |s.batch| + HEADER_SIZE + |s.queue[0].payload| > BATCH_SIZE then s' == s.(strand := Filled)
      else Buffered(s.queue[0]) && s' == s.(batch := s.batch + Encode(s.queue[0]), queue := s.queue[1..])
    case Filled =>
      s' == if |s.batch| == 0 then s.(strand := Free) else s.(writing := true, strand := Free)
    case Finished =>
      s' == if s.queue != [] then s.(pending := false, strand := Checking) else s.(strand := Emptied)
    case Emptied =>
      s' == if s.pending then s.(pending := false, strand := Checking) else s.(strand := Free)
  }

  /** The socket has taken n more bytes of the batch. */
  ghost predicate Completes(s: State, n: nat, s': State) {
    && s.sent + n <= |s.batch|
    && var t := s.(written := s.written + s.batch[s.sent..s.sent + n], sent := s.sent + n);
       s' == if t.sent < |t.batch| then t else t.(writing := false, strand := Finished)
  }

  ghost predicate Step(s: State, s': State) {
    EngineStep(s, s') || StrandStep(s, s')
  }

  // ----- Invariants -----

  /** Written bytes, the unsent batch and the queue are exactly the accepted messages. */
  ghost predicate Balanced(s: State) {
    && AllBuffered(s.queue) && AllBuffered(s.accepted)
    && s.sent <= |s.batch| <= BATCH_SIZE
    && (s.strand.Filling? || s.strand.Filled? ==> !s.writing && s.sent == 0)
    && (s.strand.Finished? || s.strand.Emptied? ==> !s.writing)
    && (!s.writing && !s.strand.Filling? && !s.strand.Filled? ==> s.sent == |s.batch|)
    && s.written + s.batch[s.sent..] + EncodeAll(s.queue) == EncodeAll(s.accepted)
  }

  /** Somebody will look at a non-empty queue again. */
  ghost predicate Attended(s: State) {
    || s.writing
    || 0 < s.posted
    || s.engine.Pushed? || s.engine.Won?
    || s.strand.Checking? || s.strand.Filling? || s.strand.Finished?
    || (s.strand.Filled? && s.batch != [])
  }

  ghost predicate Awake(s: State) {
    && (s.pending ==> 0 < s.posted || s.engine.Won?)
    && (s.queue != [] ==>
          || s.writing || s.pending || s.engine.Pushed?
          || s.strand.Checking? || s.strand.Filling? || s.strand.Finished?
          || (s.strand.Filled? && s.batch != []))
    && (s.strand.Filling? || s.strand.Filled? ==> !s.writing)
  }

  lemma EngineBalanced(s: State, s': State)
    requires Balanced(s) && EngineStep(s, s')
    ensures Balanced(s')
  {
    hide EncodeAll;
    if s.engine.Quiet? {
      var m :| Buffered(m) && s' == s.(queue := s.queue + [m], accepted := s.accepted + [m], engine := Pushed);
      EncodeConcat(s.queue, [m]);
      EncodeConcat(s.accepted, [m]);
      var head := s.written + s.batch[s.sent..];
      assert head + (EncodeAll(s.queue) + EncodeAll([m])) == (head + EncodeAll(s.queue)) + EncodeAll([m]);
    }
  }

  lemma StrandBalanced(s: State, s': State)
    requires Balanced(s) && StrandStep(s, s')
    ensures Balanced(s')
  {
    hide EncodeAll, Encode;
    match s.strand
    case Free =>
      if s.writing && exists n: nat :: Completes(s, n, s') {
        var n: nat :| Completes(s, n, s');
        CompletesBalanced(s, n, s');
      }
    case Checking =>
      assert s.sent == |s.batch| ==> s.batch[s.sent..] == [];
    case Filling =>
      FillingBalanced(s, s');
    case Filled =>
    case Finished =>
    case Emptied =>
  }

  lemma CompletesBalanced(s: State, n: nat, s': State)
    requires Balanced(s) && s.strand.Free? && s.writing && Completes(s, n, s')
    ensures Balanced(s')
  {
    hide EncodeAll, Encode;
    assert s.batch[s.sent..] == s.batch[s.sent..s.sent + n] + s.batch[s.sent + n..];
    Regroup(s.written, s.batch[s.sent..s.sent + n], s.batch[s.sent + n..], EncodeAll(s.queue));
  }

  lemma FillingBalanced(s: State, s': State)
    requires Balanced(s) && s.strand.Filling? && StrandStep(s, s')
    ensures Balanced(s')
  {
    hide EncodeAll, Encode;
    if s.queue != [] && |s.batch| + HEADER_SIZE + |s.queue[0].payload| <= BATCH_SIZE {
      var m, tail := s.queue[0], s.queue[1..];
      EncodeHead(m, tail);
      assert s.queue == [m] + tail;
      Regroup(s.written, s.batch, Encode(m), EncodeAll(tail));
      assert s.batch[0..] == s.batch && s'.batch[0..] == s'.batch;
    }
  }

  lemma Regroup(a: seq<u8>, b: seq<u8>, c: seq<u8>, d: seq<u8>)
    ensures a + (b + c) + d == (a + b) + c + d
    ensures a + b + (c + d) == a + (b + c) + d
  {
  }

  lemma EncodeHead(m: Frame, tail: seq<Frame>)
    requires Buffered(m) && AllBuffered(tail)
    ensures EncodeAll([m] + tail) == Encode(m) + EncodeAll(tail)
  {
  }

  /** Every step of either thread keeps the bytes balanced. */
  lemma StepBalanced(s: State, s': State)
    requires Balanced(s) && Step(s, s')
    ensures Balanced(s')
  {
    if EngineStep(s, s') {
      EngineBalanced(s, s');
    } else {
      StrandBalanced(s, s');
    }
  }

  /** Every step of either thread keeps a non-empty queue attended. */
  lemma StepAwake(s: State, s': State)
    requires Balanced(s) && Awake(s) && Step(s, s')
    ensures Awake(s')
  {
    hide EncodeAll, Encode;
  }

  // ----- Runs -----

  ghost predicate IsRun(states: seq<State>) {
    && |states| > 0
    && Init(states[0])
    && forall i, j :: 0 <= i < j < |states| && j == i + 1 ==> Step(states[i], states[j])
  }

  /** In every reachable state of every interleaving: the bytes written so far, the unsent rest of
      the batch and the encoding of the queue are the encoding of the accepted messages, in order;
      and a non-empty queue has a drain posted, a write in progress, a producer about to schedule
      one, or a handler under way that will look at it again. */
  lemma {:induction false} RunPump(states: seq<State>, n: nat)
    requires IsRun(states) && n < |states|
    ensures Balanced(states[n]) && Awake(states[n])
    ensures states[n].queue != [] ==> Attended(states[n])
  {
    hide Step;
    if n == 0 {
      assert EncodeAll([]) == [];
    } else {
      RunPump(states, n - 1);
      assert Step(states[n - 1], states[n]);
      StepBalanced(states[n - 1], states[n]);
      StepAwake(states[n - 1], states[n]);
    }
  }

  /** Whatever part of the stream has been written, a receiver that reads it in any pieces delivers
      a prefix of the accepted messages; once everything is written, all of them. */
  lemma PumpDelivers(states: seq<State>, n: nat, chunks: seq<seq<u8>>, room: nat)
    requires IsRun(states) && n < |states| && Joined(chunks) == states[n].written && |states[n].accepted| <= room
    ensures var got := ReadAll(Inbound([], [], room, Waiting), chunks).delivered;
            && got <= states[n].accepted
            && (states[n].queue == [] && states[n].sent == |states[n].batch| ==> got == states[n].accepted)
  {
    hide EncodeAll, Parse, Step;
    var s := states[n];
    RunPump(states, n);
    var rest := s.batch[s.sent..] + EncodeAll(s.queue);
    assert s.written + rest == EncodeAll(s.accepted);
    SplitInvariance(Inbound([], [], room, Waiting), chunks);
    assert [] + s.written == s.written;
    ParsePrefix(s.written, rest, room);
    ParseEncode(s.accepted, room);
    var p := Parse(s.written, room);
    assert [] + p.frames == p.frames;
    if s.queue == [] && s.sent == |s.batch| {
      NothingLeft(s.queue);
      assert s.written + [] == s.written;
    }
  }

  lemma NothingLeft(fs: seq<Frame>)
    requires fs == []
    ensures AllBuffered(fs) && EncodeAll(fs) == []
  {
  }
}
