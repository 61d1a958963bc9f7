/** One client connection in place: the read accumulator with its parse loop, and the batched
    writes of queued messages. */
module Connections {
  import opened Framing

  const OUTBOUND_Q_CAP: nat := 65536

  /** Frames already delivered, then what the rest of the bytes parses to. */
  function Prepended(fs: seq<Frame>, p: Parsed): Parsed {
    Parsed(fs + p.frames, p.rest, p.stop)
  }

  lemma PrependedStep(fs: seq<Frame>, bytes: seq<u8>, room: nat)
    requires Complete(bytes) && Accepted(FirstFrame(bytes), room)
    ensures var f := FirstFrame(bytes);
            Prepended(fs, Parse(bytes, room)) ==
            Prepended(fs + [f], Parse(bytes[FrameSize(bytes)..], if Buffered(f) then room - 1 else room))
  {
  }

  class Connection {
    // Receiving
    var inAccum: array<u8>
    var inUsed: nat
    var delivered: seq<Frame>
    var room: nat
    var disconnected: bool
    ghost var stop: Stop

    // Sending
    const outBatch: array<u8>
    var outBatchLen: nat
    var outBatchSent: nat
    var writeInProgress: bool
    var writeWakeupPending: bool
    var postedDrains: nat
    var outbound: seq<Frame>
    ghost var accepted: seq<Frame>
    ghost var written: seq<u8>

    ghost predicate ReadsOk()
      reads this, inAccum
    {
      && inAccum.Length in {2 * READ_SIZE, 4 * READ_SIZE}
      && inUsed <= inAccum.Length
      && (stop.Waiting? ==> inUsed <= 65537 && !Complete(inAccum[..inUsed]))
      && (!stop.Waiting? ==> disconnected)
    }

    /** Bytes written, the unsent part of the batch and the queue are all accepted messages. */
    ghost predicate WritesOk()
      reads this, outBatch
    {
      && outBatch.Length == BATCH_SIZE
      && outBatchSent <= outBatchLen <= BATCH_SIZE
      && (!writeInProgress ==> outBatchSent == outBatchLen)
      && AllBuffered(outbound) && AllBuffered(accepted)
      && written + outBatch[outBatchSent..outBatchLen] + EncodeAll(outbound) == EncodeAll(accepted)
    }

    /** The first message left in the queue does not fit behind the batch. */
    ghost predicate BatchFull()
      reads this, outBatch
    {
      outbound != [] ==> outBatchLen + HEADER_SIZE + |outbound[0].payload| > outBatch.Length
    }

    /** A queued message is never stranded: a write is in progress or a drain has been posted. */
    ghost predicate WakeupsOk()
      reads this
    {
      && (outbound != [] ==> writeInProgress || writeWakeupPending)
      && (writeWakeupPending ==> 0 < postedDrains)
    }

    ghost predicate Valid()
      reads this, inAccum, outBatch
    {
      inAccum != outBatch && ReadsOk() && WritesOk() && WakeupsOk()
    }

    ghost function Inbound(): Framing.Inbound
      requires inUsed <= inAccum.Length
      reads this, inAccum
    {
      Framing.Inbound(inAccum[..inUsed], delivered, room, stop)
    }

    /** `room` is the number of frames the engine's queue will accept before it refuses one. */
    constructor (room: nat)
      ensures Valid() && fresh(inAccum) && fresh(outBatch)
      ensures Inbound() == Framing.Inbound([], [], room, Waiting)
      ensures accepted == [] && written == [] && outbound == [] && !writeInProgress && !disconnected
    {
      inAccum := new u8[2 * READ_SIZE];
      outBatch := new u8[BATCH_SIZE];
      inUsed, delivered, disconnected, stop := 0, [], false, Waiting;
      this.room := room;
      outBatchLen, outBatchSent, writeInProgress, outbound := 0, 0, false, [];
      writeWakeupPending, postedDrains := false, 0;
      accepted, written := [], [];
      new;
      assert inAccum[..0] == [];
    }

    /** The frame at an offset of the accumulator, if all its bytes have arrived. */
    method FrameAt(offset: nat) returns (complete: bool, frame: Frame)
      requires offset <= inUsed <= inAccum.Length
      ensures complete <==> Complete(inAccum[offset..inUsed])
      ensures complete ==> frame == FirstFrame(inAccum[offset..inUsed])
      ensures complete ==> HEADER_SIZE + |frame.payload| == FrameSize(inAccum[offset..inUsed])
    {
      frame := Frame(0, []);
      if inUsed - offset < HEADER_SIZE {
        return false, frame;
      }
      ghost var rest := inAccum[offset..inUsed];
      var payloadSize := ReadU16(inAccum[offset + 1], inAccum[offset + 2]);
      assert rest[0] == inAccum[offset] && rest[1] == inAccum[offset + 1] && rest[2] == inAccum[offset + 2];
      var frameSize := HEADER_SIZE + payloadSize;
      if inUsed - offset < frameSize {
        return false, frame;
      }
      frame := Frame(inAccum[offset], inAccum[offset + HEADER_SIZE..offset + frameSize]);
      assert frame.payload == rest[HEADER_SIZE..frameSize];
      complete := true;
    }

    /** Move the unparsed bytes to the front of the accumulator. */
    method Compact(offset: nat)
      requires offset <= inUsed <= inAccum.Length
      modifies this`inUsed, inAccum
      ensures inUsed == old(inUsed) - offset && inAccum[..inUsed] == old(inAccum[offset..inUsed])
    {
      if offset > 0 {
        var remaining := inUsed - offset;
        forall i | 0 <= i < remaining {
          inAccum[i] := inAccum[i + offset];
        }
        inUsed := remaining;
      }
    }

    /** The parse loop: deliver complete frames, then move the leftover to the front. */
    method ParseAccumulator()
      requires stop.Waiting? && inUsed <= inAccum.Length
      modifies this`inUsed, this`delivered, this`room, this`disconnected, this`stop, inAccum
      ensures var p := Parse(old(inAccum[..inUsed]), old(room));
              && delivered == old(delivered) + p.frames
              && stop == p.stop
              && room + Pushes(p.frames) == old(room)
              && inUsed <= inAccum.Length
              && (stop.Waiting? ==> inAccum[..inUsed] == p.rest && disconnected == old(disconnected))
              && (!stop.Waiting? ==> disconnected)
    {
      hide Parse, Complete, FirstFrame, FrameSize;
      ghost var whole := Parse(inAccum[..inUsed], room);
      ghost var done: seq<Frame> := [];
      var offset := 0;
      assert Prepended([], whole) == whole;
      while true
        invariant offset <= inUsed <= inAccum.Length
        invariant stop.Waiting? && disconnected == old(disconnected)
        invariant delivered == old(delivered) + done && room + Pushes(done) == old(room)
        invariant whole == Prepended(done, Parse(inAccum[offset..inUsed], room))
        decreases inUsed - offset
      {
        ghost var rest := inAccum[offset..inUsed];
        var complete, frame := FrameAt(offset);
        if !complete {
          ParseEnd(rest, room);
          break;
        }
        if |frame.payload| > MAX_PAYLOAD_SIZE {
          ParseEnd(rest, room);
          assert whole.frames == done;
          disconnected, stop := true, Violation;
          return;
        }
        if |frame.payload| <= MAX_PAYLOAD_SIZE_BUFFER && room == 0 {
          ParseEnd(rest, room);
          assert whole.frames == done;
          disconnected, stop := true, Overflow;
          return;
        }
        PrependedStep(done, rest, room);
        PushesSnoc(done, frame);
        if |frame.payload| <= MAX_PAYLOAD_SIZE_BUFFER {
          room := room - 1;
        }
        delivered := delivered + [frame];
        done := done + [frame];
        offset := offset + HEADER_SIZE + |frame.payload|;
        assert rest[HEADER_SIZE + |frame.payload|..] == inAccum[offset..inUsed];
      }
      assert whole.frames == done;
      Compact(offset);
    }

    /** Append received bytes. The accumulator doubles at most once in the life of a connection:
        from 131070 bytes to 262140, which no leftover plus one read can exceed. */
    method Append(chunk: seq<u8>)
      requires inAccum.Length in {2 * READ_SIZE, 4 * READ_SIZE} && inUsed <= 65537 && |chunk| <= READ_SIZE
      modifies this`inAccum, this`inUsed, inAccum
      ensures inAccum == old(inAccum)
              || (fresh(inAccum) && old(inAccum.Length) == 2 * READ_SIZE && inAccum.Length == 4 * READ_SIZE)
      ensures inUsed <= inAccum.Length
      ensures inAccum[..inUsed] == old(inAccum[..inUsed]) + chunk
    {
      if inUsed + |chunk| > inAccum.Length {
        var newSize := inAccum.Length;
        while newSize < inUsed + |chunk|
          invariant inAccum.Length <= newSize <= 4 * READ_SIZE && newSize in {2 * READ_SIZE, 4 * READ_SIZE}
          decreases 4 * READ_SIZE - newSize
        {
          newSize := newSize * 2;
        }
        var grown := new u8[newSize];
        forall i | 0 <= i < inAccum.Length {
          grown[i] := inAccum[i];
        }
        assert grown[..inUsed] == inAccum[..inUsed];
        inAccum := grown;
      }
      forall i | 0 <= i < |chunk| {
        inAccum[inUsed + i] := chunk[i];
      }
      inUsed := inUsed + |chunk|;
    }

    /** A completed read: append the bytes and parse, even if a failed write has disconnected the
        connection meanwhile. No read completes after one that stopped the parser. */
    method HandleRead(error: bool, chunk: seq<u8>)
      requires Valid() && stop.Waiting? && |chunk| <= READ_SIZE
      modifies this, inAccum
      ensures Valid() && (inAccum == old(inAccum) || fresh(inAccum))
      ensures unchanged(this`outBatchLen, this`outBatchSent, this`writeInProgress, this`writeWakeupPending,
                        this`postedDrains)
      ensures unchanged(this`outbound, this`accepted, this`written)
      ensures error ==> disconnected && Inbound() == old(Inbound())
      ensures !error ==>
                var c := Framing.Read(old(Inbound()), chunk);
                && delivered == c.delivered && room == c.room && stop == c.stop
                && (disconnected <==> old(disconnected) || !stop.Waiting?)
                && (stop.Waiting? ==> Inbound() == c)
      ensures old(inAccum.Length) <= inAccum.Length <= 4 * READ_SIZE
    {
      hide Parse, EncodeAll, Complete, AllBuffered;
      if error {
        disconnected := true;
        return;
      }
      Append(chunk);
      ParseAccumulator();
    }

    // ----- Sending -----

    /** Queue a message for the client; a message that finds the queue full is dropped. */
    method SendMessage(kind: u8, payload: seq<u8>)
      requires Valid()
      modifies this`outbound, this`accepted, this`writeWakeupPending, this`postedDrains
      ensures Valid()
      ensures if |payload| <= MAX_PAYLOAD_SIZE_BUFFER && old(|outbound|) < OUTBOUND_Q_CAP
              then outbound == old(outbound) + [Frame(kind, payload)]
                  && accepted == old(accepted) + [Frame(kind, payload)]
              else outbound == old(outbound) && accepted == old(accepted)
      ensures accepted == old(accepted) ==>
                writeWakeupPending == old(writeWakeupPending) && postedDrains == old(postedDrains)
      ensures accepted != old(accepted) ==>
                writeWakeupPending && postedDrains == old(postedDrains) + if old(writeWakeupPending) then 0 else 1
    {
      hide EncodeAll, Parse;
      if |payload| > MAX_PAYLOAD_SIZE_BUFFER || |outbound| >= OUTBOUND_Q_CAP {
        return;
      }
      var f := Frame(kind, payload);
      EncodeConcat(outbound, [f]);
      EncodeConcat(accepted, [f]);
      var sent := written + outBatch[outBatchSent..outBatchLen];
      assert sent + (EncodeAll(outbound) + EncodeAll([f])) == (sent + EncodeAll(outbound)) + EncodeAll([f]);
      outbound := outbound + [f];
      accepted := accepted + [f];
      if !writeWakeupPending {
        writeWakeupPending := true;
        postedDrains := postedDrains + 1;
      }
    }

    /** The I/O strand runs a posted drain. */
    method RunPostedDrain()
      requires Valid() && 0 < postedDrains
      modifies this`outBatchLen, this`outBatchSent, this`writeInProgress, this`writeWakeupPending, this`postedDrains,
                 this`outbound, outBatch
      ensures Valid() && postedDrains == old(postedDrains) - 1 && !writeWakeupPending
      ensures outbound != [] ==> writeInProgress
      ensures old(writeInProgress) ==> outbound == old(outbound) && writeInProgress
      ensures !old(writeInProgress) ==> BatchFull()
    {
      postedDrains := postedDrains - 1;
      DrainWrites();
    }

    /** Copy one message behind the batch. */
    method PutFrame(f: Frame)
      requires Buffered(f) && outBatchLen + HEADER_SIZE + |f.payload| <= outBatch.Length
      modifies outBatch, this`outBatchLen
      ensures outBatchLen == old(outBatchLen) + HEADER_SIZE + |f.payload| <= outBatch.Length
      ensures outBatch[..outBatchLen] == old(outBatch[..outBatchLen]) + Encode(f)
    {
      hide HighByte, LowByte;
      outBatch[outBatchLen] := f.kind;
      outBatch[outBatchLen + 1] := HighByte(|f.payload|);
      outBatch[outBatchLen + 2] := LowByte(|f.payload|);
      forall i | 0 <= i < |f.payload| {
        outBatch[outBatchLen + HEADER_SIZE + i] := f.payload[i];
      }
      Placed(old(outBatch[..outBatchLen]), outBatch[..], f);
      outBatchLen := outBatchLen + HEADER_SIZE + |f.payload|;
    }

    /** Move the first queued message behind the batch. */
    method TakeFrame(ghost taken: seq<Frame>)
      requires outbound != [] && AllBuffered(outbound) && AllBuffered(taken)
      requires outBatchLen + HEADER_SIZE + |outbound[0].payload| <= outBatch.Length
      requires outBatch[..outBatchLen] == EncodeAll(taken)
      modifies outBatch, this`outBatchLen, this`outbound
      ensures 0 < outBatchLen <= outBatch.Length && outbound == old(outbound[1..]) && AllBuffered(outbound)
      ensures AllBuffered(taken + [old(outbound[0])])
      ensures outBatch[..outBatchLen] == EncodeAll(taken + [old(outbound[0])])
    {
      hide EncodeAll, Encode;
      PutFrame(outbound[0]);
      OneEncoded(outbound[0]);
      EncodeConcat(taken, [outbound[0]]);
      outbound := outbound[1..];
    }

    /** Fill a new batch from the queue. */
    method FillBatch() returns (ghost taken: seq<Frame>)
      requires AllBuffered(outbound)
      modifies this`outBatchLen, this`outBatchSent, this`outbound, outBatch
      ensures AllBuffered(taken) && AllBuffered(outbound) && old(outbound) == taken + outbound
      ensures outBatchLen <= outBatch.Length && outBatchSent == 0 && outBatch[..outBatchLen] == EncodeAll(taken)
      ensures BatchFull() && (outBatchLen == 0 && BATCH_SIZE <= outBatch.Length ==> outbound == [])
    {
      hide EncodeAll, Encode, AllBuffered;
      outBatchLen, outBatchSent := 0, 0;
      taken := [];
      NothingEncoded();
      assert outBatch[..0] == [];
      while true
        invariant outBatchLen <= outBatch.Length && outBatchSent == 0
        invariant AllBuffered(taken) && AllBuffered(outbound) && old(outbound) == taken + outbound
        invariant outBatch[..outBatchLen] == EncodeAll(taken)
        decreases |outbound|
      {
        if outbound == [] {
          break;
        }
        HeadFits(outbound);
        var frameSize := HEADER_SIZE + |outbound[0].payload|;
        if outBatchLen + frameSize > outBatch.Length {
          break;
        }
        ghost var m := outbound[0];
        TakeOne(old(outbound), taken, outbound);
        TakeFrame(taken);
        taken := taken + [m];
      }
    }

    /** Fill a new batch from the queue and start writing it, unless a write is in progress. */
    method DrainWrites()
      requires inAccum != outBatch && ReadsOk() && WritesOk()
      modifies this`outBatchLen, this`outBatchSent, this`writeInProgress, this`writeWakeupPending, this`outbound
      modifies outBatch
      ensures Valid() && !writeWakeupPending
      ensures outbound != [] ==> writeInProgress
      ensures old(writeInProgress) ==> outbound == old(outbound) && writeInProgress
      ensures !old(writeInProgress) ==> BatchFull() && outBatchSent == 0 && (writeInProgress <==> outBatchLen > 0)
    {
      hide EncodeAll, Parse, Complete;
      writeWakeupPending := false;
      if writeInProgress {
        return;
      }
      assert outBatch[outBatchSent..outBatchLen] == [];
      ghost var taken := FillBatch();
      EncodeConcat(taken, outbound);
      DrainedBalance(written, EncodeAll(old(outbound)), outBatch[..outBatchLen], EncodeAll(outbound));
      assert outBatch[0..outBatchLen] == outBatch[..outBatchLen];
      if outBatchLen == 0 {
        return;
      }
      writeInProgress := true;
    }

    /** A completed partial write of n bytes of the batch. */
    method HandleWrite(error: bool, n: nat)
      requires Valid() && writeInProgress && n <= outBatchLen - outBatchSent
      modifies this`outBatchLen, this`outBatchSent, this`writeInProgress, this`writeWakeupPending, this`outbound
      modifies this`written, this`disconnected, outBatch
      ensures !error ==> Valid() && disconnected == old(disconnected)
      ensures !error ==> written == old(written + outBatch[outBatchSent..outBatchSent + n])
      ensures error ==> disconnected && written == old(written)
      ensures !error && outbound != [] ==> writeInProgress
      ensures !error && old(outBatchSent) + n < old(outBatchLen) ==>
                && writeInProgress && outBatchSent == old(outBatchSent) + n
                && unchanged(this`outBatchLen, this`outbound, this`writeWakeupPending)
      ensures !error && old(outBatchSent) + n == old(outBatchLen) ==> BatchFull() && !writeWakeupPending
    {
      hide EncodeAll, Parse;
      if error {
        writeInProgress, disconnected := false, true;
        return;
      }
      ghost var part, tail := outBatch[outBatchSent..outBatchSent + n], outBatch[outBatchSent + n..outBatchLen];
      assert outBatch[outBatchSent..outBatchLen] == part + tail;
      assert written + (part + tail) + EncodeAll(outbound) == (written + part) + tail + EncodeAll(outbound);
      written := written + part;
      outBatchSent := outBatchSent + n;
      if outBatchSent < outBatchLen {
        return;
      }
      writeInProgress := false;
      if outbound != [] {
        DrainWrites();
        return;
      }
      if writeWakeupPending {
        writeWakeupPending := false;
        DrainWrites();
      }
    }
  }

  /** Header and payload copied behind the first bytes. */
  lemma Placed(before: seq<u8>, after: seq<u8>, f: Frame)
    requires Buffered(f) && |before| + HEADER_SIZE + |f.payload| <= |after|
    requires forall i :: 0 <= i < |before| ==> after[i] == before[i]
    requires var n := |before|;
             after[n] == f.kind && after[n + 1] == HighByte(|f.payload|) && after[n + 2] == LowByte(|f.payload|)
    requires forall i :: 0 <= i < |f.payload| ==> after[|before| + HEADER_SIZE + i] == f.payload[i]
    ensures after[..|before| + HEADER_SIZE + |f.payload|] == before + Encode(f)
  {
    hide HighByte, LowByte;
    var n := |before|;
    assert after[n + HEADER_SIZE..n + HEADER_SIZE + |f.payload|] == f.payload;
  }

  lemma TakeOne(whole: seq<Frame>, taken: seq<Frame>, rest: seq<Frame>)
    requires whole == taken + rest && rest != []
    ensures whole == (taken + [rest[0]]) + rest[1..]
  {
  }

  lemma HeadFits(fs: seq<Frame>)
    requires AllBuffered(fs) && fs != []
    ensures HEADER_SIZE + |fs[0].payload| <= BATCH_SIZE
  {
  }

  lemma NothingEncoded()
    ensures AllBuffered([]) && EncodeAll([]) == []
  {
  }

  lemma OneEncoded(f: Frame)
    requires Buffered(f)
    ensures EncodeAll([f]) == Encode(f)
  {
  }

  lemma DrainedBalance(written: seq<u8>, before: seq<u8>, batch: seq<u8>, after: seq<u8>)
    requires before == batch + after
    ensures written + [] + before == written + batch + after
  {
  }

  lemma PushesSnoc(fs: seq<Frame>, f: Frame)
    ensures Pushes(fs + [f]) == Pushes(fs) + if Buffered(f) then 1 else 0
  {
    PushesConcat(fs, [f]);
    assert [f][1..] == [];
  }
}
