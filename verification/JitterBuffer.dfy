/**
 The jitter buffer as the program keeps it (src/core/jitter_buffer.cpp): a fixed ring array
 filled and emptied in wrap-around chunks, a map of waiting packets and running counters.
 `View` is the abstract state of `JitterSpec`; each public method is proved to be the
 operation of the same name on it.
 */
module JitterBuffers {
  import opened Basics
  import opened Pcm
  import opened JitterSpec
  import opened JitterInvariant

  /** The ring index of the frame `i` places after `start`. */
  function Slot(start: nat, i: nat, capacity: nat): nat {
    if start + i < capacity then start + i else start + i - capacity
  }

  lemma MulAtLeast(m: nat, quotient: nat)
    ensures quotient >= 2 ==> m * quotient >= 2 * m
  {
    if quotient >= 2 {
      assert m * quotient == 2 * m + m * (quotient - 2);
    }
  }

  lemma SlotIsModulo(start: nat, i: nat, capacity: nat)
    requires start < capacity && i <= capacity
    ensures (start + i) % capacity == Slot(start, i, capacity) < capacity
  {
    var x := start + i;
    var quotient, rest := x / capacity, x % capacity;
    assert x == capacity * quotient + rest;
    MulAtLeast(capacity, quotient);
  }

  predicate Shaped(ring: seq<Sample>, start: nat, size: nat) {
    start < |ring| && size <= |ring|
  }

  /** The queue a ring holds: `size` samples read from `start` around the end. */
  function Unrolled(ring: seq<Sample>, start: nat, size: nat): (queue: seq<Sample>)
    requires Shaped(ring, start, size)
    ensures |queue| == size
  {
    seq(size, i requires 0 <= i < size => ring[Slot(start, i, |ring|)])
  }

  lemma UnrolledWrite(ring: seq<Sample>, start: nat, size: nat, chunk: seq<Sample>)
    requires Shaped(ring, start, size) && size < |ring| && size + |chunk| <= |ring|
    requires Slot(start, size, |ring|) + |chunk| <= |ring|
    ensures var at := Slot(start, size, |ring|);
      Unrolled(ring[..at] + chunk + ring[at + |chunk|..], start, size + |chunk|) == Unrolled(ring, start, size) + chunk
  {
  }

  lemma UnrolledDrop(ring: seq<Sample>, start: nat, size: nat, n: nat)
    requires Shaped(ring, start, size) && n <= size
    ensures Slot(start, n, |ring|) < |ring|
    ensures Unrolled(ring, Slot(start, n, |ring|), size - n) == Unrolled(ring, start, size)[n..]
  {
  }

  lemma UnrolledChunk(ring: seq<Sample>, start: nat, size: nat, n: nat)
    requires Shaped(ring, start, size) && n <= size && start + n <= |ring|
    ensures forall i :: 0 <= i < n ==> ring[start + i] == Unrolled(ring, start, size)[i]
  {
  }

  class JitterBuffer {
    const startThresholdFrames: nat
    const maximumBufferFrames: nat
    const readyRing: array<Sample>
    var pendingPackets: map<nat, seq<Sample>>
    var readIndex: nat
    var readySize: nat
    var expectedSequence: nat
    var haveSequence: bool
    var stats: Stats
    ghost var ready: seq<Frame>
    ghost var history: History

    ghost function Cfg(): Config {
      Config(startThresholdFrames, maximumBufferFrames)
    }

    ghost function View(): State
      reads this
    {
      State(ready, pendingPackets, expectedSequence, haveSequence, stats, history)
    }

    ghost predicate RingShaped()
      reads this`readIndex, this`readySize, readyRing
    {
      readyRing.Length == maximumBufferFrames && Shaped(readyRing[..], readIndex, readySize)
    }

    ghost function Contents(): seq<Sample>
      requires RingShaped()
      reads this`readIndex, this`readySize, readyRing
    {
      Unrolled(readyRing[..], readIndex, readySize)
    }

    /** The ring holds the samples of the ready queue. */
    ghost predicate RingHolds()
      reads this`readIndex, this`readySize, this`ready, readyRing
    {
      RingShaped() && Contents() == Samples(ready)
    }

    ghost predicate Valid()
      reads this, readyRing
    {
      RingHolds() && Inv(Cfg(), View())
    }

    constructor (startThresholdFrames: nat, maximumBufferFrames: nat)
      ensures Valid() && fresh(readyRing) && View() == INITIAL
      ensures this.startThresholdFrames == startThresholdFrames
      ensures this.maximumBufferFrames == Max(1, maximumBufferFrames)
    {
      hide Inv;
      this.startThresholdFrames := startThresholdFrames;
      var capacity := Max(1, maximumBufferFrames);
      this.maximumBufferFrames := capacity;
      readyRing := new Sample[capacity];
      pendingPackets, readIndex, readySize := map[], 0, 0;
      expectedSequence, haveSequence, stats := 0, false, ZERO_STATS;
      ready, history := [], INITIAL.history;
      new;
      InitialKeeps(Cfg());
    }

    method Push(sequence: nat, samples: seq<Sample>)
      requires Valid()
      modifies this, readyRing
      ensures Valid() && View() == JitterSpec.Push(Cfg(), old(View()), sequence, samples)
    {
      hide Inv, RingHolds, Promote, Admit, LastN, Tagged, Late, Counted, Refresh, Enqueue, IsLate;
      PushKeeps(Cfg(), View(), sequence, samples);
      if |samples| == 0 {
        return;
      }
      var admitted := PlacePacket(sequence);
      if !admitted {
        return;
      }
      if sequence == expectedSequence {
        ghost var a := View();
        AppendReady(samples);
        StepPast(a, samples);
      } else {
        var inserted := Wait(sequence, samples);
        if !inserted {
          return;
        }
      }
      CountPushed(|samples|);
    }

    /** The byte form of `Push`: same state and counters as pushing the decoded samples. */
    method PushPcm16Le(sequence: nat, payload: seq<Byte>) returns (accepted: bool)
      requires Valid()
      modifies this, readyRing
      ensures Valid() && (accepted <==> payload != [] && |payload| % 2 == 0)
      ensures View() == if accepted then JitterSpec.Push(Cfg(), old(View()), sequence, Decode(payload)) else old(View())
    {
      hide Inv;
      if |payload| == 0 || |payload| % 2 != 0 {
        return false;
      }
      PushFrames(sequence, payload);
      accepted := true;
    }

    method PushFrames(sequence: nat, payload: seq<Byte>)
      requires Valid() && payload != [] && |payload| % 2 == 0
      modifies this, readyRing
      ensures Valid() && View() == JitterSpec.Push(Cfg(), old(View()), sequence, Decode(payload))
    {
      hide Inv, RingHolds, Promote, Admit, Encode, Decode, LastN, Tagged, Late, Counted, Refresh, Enqueue, IsLate;
      PushKeeps(Cfg(), View(), sequence, Decode(payload));
      var frames := |payload| / 2;
      var admitted := PlacePacket(sequence);
      if !admitted {
        return;
      }
      if sequence == expectedSequence {
        ghost var a := View();
        AppendReadyPcm16Le(payload);
        StepPast(a, Decode(payload));
      } else {
        var ok, packet := DecodeMonoPcm16Le(payload);
        var inserted := Wait(sequence, packet);
        if !inserted {
          return;
        }
      }
      CountPushed(frames);
    }

    /** After the due packet was appended straight to the ring: `a` is the state before. */
    method StepPast(ghost a: State, ghost samples: seq<Sample>)
      requires RingHolds() && a.haveSequence && Settled(a)
      requires ready == LastN(a.ready + Tagged(a.history.epoch, a.expected, samples), maximumBufferFrames)
      requires stats == Appended(a.stats, |a.ready|, |samples|, |ready|)
      requires View() == a.(ready := ready, stats := stats)
      modifies this, readyRing
      ensures RingHolds() && View() == Promote(Cfg(), Enqueue(a, a.expected, samples))
    {
      history := Enqueue(a, a.expected, samples).history;
      history := history.(appended := history.appended + [expectedSequence]);
      expectedSequence := expectedSequence + 1;
      AcceptDirect(Cfg(), a, View(), samples);
      PromoteLocked();
    }

    /** Keeps an early packet, unless a copy of it is already waiting. */
    method Wait(sequence: nat, packet: seq<Sample>) returns (inserted: bool)
      requires RingHolds() && Settled(View()) && sequence != expectedSequence
      modifies this`pendingPackets, this`stats, this`history
      ensures RingHolds() && (inserted <==> sequence !in old(pendingPackets))
      ensures View() == if inserted then Promote(Cfg(), Enqueue(old(View()), sequence, packet)) else Late(old(View()))
    {
      inserted := sequence !in pendingPackets;
      if !inserted {
        stats := stats.(lateOrDuplicatePackets := stats.lateOrDuplicatePackets + 1);
        return;
      }
      history := Enqueue(View(), sequence, packet).history;
      pendingPackets := pendingPackets[sequence := packet];
      PromoteIdle(Cfg(), View());
    }

    method CountPushed(frames: nat)
      requires RingHolds()
      modifies this`stats
      ensures RingHolds() && View() == Refresh(Counted(old(View()), frames))
    {
      stats := stats.(packetsPushed := stats.packetsPushed + 1, framesPushed := stats.framesPushed + frames);
      RefreshStats();
    }

    /** Where the packet falls: behind the stream (counted and dropped), or at a stream position it may set. */
    method PlacePacket(sequence: nat) returns (admitted: bool)
      requires RingHolds()
      modifies this
      ensures RingHolds()
      ensures admitted <==> !IsLate(old(View()), sequence)
      ensures View() == if admitted then Admit(old(View()), sequence) else Late(old(View()))
      ensures admitted ==> haveSequence && expectedSequence <= sequence
    {
      admitted := true;
      if !haveSequence {
        expectedSequence, haveSequence := sequence, true;
        history := history.(start := sequence);
      } else if sequence < expectedSequence {
        if expectedSequence - sequence > RESTART_PACKET_GAP {
          ResetSequence(sequence);
        } else {
          stats := stats.(lateOrDuplicatePackets := stats.lateOrDuplicatePackets + 1);
          admitted := false;
        }
      } else if sequence - expectedSequence > RESTART_PACKET_GAP {
        ResetSequence(sequence);
      }
    }

    method ResetSequence(sequence: nat)
      requires RingHolds()
      modifies this
      ensures RingHolds() && View() == Restart(old(View()), sequence)
    {
      hide Unrolled, Samples, TotalFrames;
      history := Cleared(View(), sequence, true).history;
      pendingPackets, readIndex, readySize, ready := map[], 0, 0, [];
      expectedSequence, haveSequence := sequence, true;
      stats := stats.(started := false, sequenceRestarts := stats.sequenceRestarts + 1);
      RefreshStats();
    }

    method Reset()
      requires Valid()
      modifies this
      ensures Valid() && View() == JitterSpec.Reset(old(View()))
    {
      hide Core, Holdings;
      ClearedKeeps(Cfg(), View(), 0, false);
      history := Cleared(View(), 0, false).history;
      pendingPackets, readIndex, readySize, ready := map[], 0, 0, [];
      expectedSequence, haveSequence := 0, false;
      stats := stats.(started := false);
      RefreshStats();
    }

    method RefreshStats()
      requires RingHolds()
      modifies this`stats
      ensures RingHolds() && View() == Refresh(old(View()))
    {
      stats := stats.(currentFrames := readySize);
    }

    method Snapshot() returns (copy: Stats)
      requires Valid()
      ensures copy == stats && copy.currentFrames == |View().ready|
    {
      copy := stats.(currentFrames := readySize);
    }

    method PromoteLocked()
      requires RingHolds()
      modifies this, readyRing
      ensures RingHolds() && View() == Promote(Cfg(), old(View())) && readySize == |ready|
    {
      while haveSequence && expectedSequence in pendingPackets
        invariant RingHolds()
        invariant Promote(Cfg(), View()) == Promote(Cfg(), old(View()))
        decreases |pendingPackets|
      {
        ghost var before := View();
        AppendReady(pendingPackets[expectedSequence]);
        pendingPackets := pendingPackets - {expectedSequence};
        history := history.(appended := history.appended + [expectedSequence]);
        expectedSequence := expectedSequence + 1;
        assert View() == TakeNext(Cfg(), before);
      }
    }

    ghost function Incoming(samples: seq<Sample>): (frames: seq<Frame>)
      reads this`history, this`expectedSequence
      ensures |frames| == |samples| && Samples(frames) == samples
    {
      Tagged(history.epoch, expectedSequence, samples)
    }

    /** Appends to the ready queue, which keeps its newest frames when it overflows. */
    method AppendReady(samples: seq<Sample>)
      requires RingHolds()
      modifies this`readIndex, this`readySize, this`stats, this`ready, readyRing
      ensures RingHolds() && ready == LastN(old(ready) + Incoming(samples), maximumBufferFrames)
      ensures stats == Appended(old(stats), |old(ready)|, |samples|, |ready|)
    {
      hide Unrolled, Samples, Incoming, LastN;
      if |samples| == 0 {
        EmptyWindow(ready, Incoming(samples), maximumBufferFrames);
        return;
      }
      KeepNewest(ready, Incoming(samples), Contents(), samples, maximumBufferFrames);
      var newFramesToSkip := MakeRoom(|samples|);
      WriteReady(samples[newFramesToSkip..]);
      ready := LastN(ready + Incoming(samples), maximumBufferFrames);
      stats := stats.(maxFramesSeen := Max(stats.maxFramesSeen, readySize));
    }

    /**
     Drops the oldest ready frames that `incoming` new ones push out; says how many of the new ones do not fit
     either.
     */
    method MakeRoom(incoming: nat) returns (newFramesToSkip: nat)
      requires RingShaped()
      modifies this`readIndex, this`readySize, this`stats
      ensures var overflow := Excess(old(readySize) + incoming, maximumBufferFrames);
        var dropped := Min(overflow, old(readySize));
        && RingShaped() && readySize == old(readySize) - dropped && Contents() == old(Contents())[dropped..]
        && newFramesToSkip == overflow - dropped
        && stats == old(stats).(overflowDroppedFrames := old(stats).overflowDroppedFrames + overflow)
    {
      hide Unrolled;
      newFramesToSkip := 0;
      var overflow := Excess(readySize + incoming, maximumBufferFrames);
      if overflow > 0 {
        var oldFramesToDrop := Min(overflow, readySize);
        DiscardReady(oldFramesToDrop);
        newFramesToSkip := overflow - oldFramesToDrop;
        stats := stats.(overflowDroppedFrames := stats.overflowDroppedFrames + overflow);
      }
    }

    method WriteReady(source: seq<Sample>)
      requires RingShaped() && readySize + |source| <= maximumBufferFrames
      modifies this`readySize, readyRing
      ensures RingShaped() && readySize == old(readySize) + |source| && Contents() == old(Contents()) + source
    {
      hide Unrolled;
      var sourceOffset := 0;
      while sourceOffset < |source|
        invariant sourceOffset <= |source|
        invariant RingShaped() && readySize == old(readySize) + sourceOffset
        invariant Contents() == old(Contents()) + source[..sourceOffset]
      {
        SlotIsModulo(readIndex, readySize, maximumBufferFrames);
        var writeIndex := (readIndex + readySize) % maximumBufferFrames;
        var chunk := Min(|source| - sourceOffset, maximumBufferFrames - writeIndex);
        WriteChunk(writeIndex, source[sourceOffset..sourceOffset + chunk]);
        sourceOffset := sourceOffset + chunk;
      }
      assert source[..sourceOffset] == source;
    }

    /** Copies one contiguous chunk just past the live part of the ring. */
    method WriteChunk(writeIndex: nat, chunk: seq<Sample>)
      requires RingShaped() && readySize + |chunk| <= maximumBufferFrames && readySize < maximumBufferFrames
      requires writeIndex == Slot(readIndex, readySize, maximumBufferFrames)
      requires writeIndex + |chunk| <= maximumBufferFrames
      modifies this`readySize, readyRing
      ensures RingShaped() && readySize == old(readySize) + |chunk| && Contents() == old(Contents()) + chunk
    {
      UnrolledWrite(readyRing[..], readIndex, readySize, chunk);
      forall i | 0 <= i < |chunk| {
        readyRing[writeIndex + i] := chunk[i];
      }
      readySize := readySize + |chunk|;
      assert readyRing[..] == old(readyRing[..writeIndex]) + chunk + old(readyRing[writeIndex + |chunk|..]);
    }

    /** The byte form of `AppendReady`: decodes straight into the ring, one frame at a time. */
    method AppendReadyPcm16Le(payload: seq<Byte>)
      requires RingHolds() && payload != [] && |payload| % 2 == 0
      modifies this`readIndex, this`readySize, this`stats, this`ready, readyRing
      ensures RingHolds() && ready == LastN(old(ready) + Incoming(Decode(payload)), maximumBufferFrames)
      ensures stats == Appended(old(stats), |old(ready)|, |payload| / 2, |ready|)
    {
      hide Unrolled, Incoming, LastN, Decode, Samples;
      ghost var samples := Decode(payload);
      KeepNewest(ready, Incoming(samples), Contents(), samples, maximumBufferFrames);
      var sourceFrame := MakeRoom(|payload| / 2);
      WriteReadyPcm16Le(payload, sourceFrame);
      ready := LastN(ready + Incoming(samples), maximumBufferFrames);
      stats := stats.(maxFramesSeen := Max(stats.maxFramesSeen, readySize));
    }

    method WriteReadyPcm16Le(payload: seq<Byte>, from: nat)
      requires RingShaped() && |payload| % 2 == 0 && from <= |payload| / 2
      requires readySize + |payload| / 2 - from <= maximumBufferFrames
      modifies this`readySize, readyRing
      ensures RingShaped() && readySize == old(readySize) + |payload| / 2 - from
      ensures Contents() == old(Contents()) + Decode(payload)[from..]
    {
      hide Unrolled;
      ghost var samples := Decode(payload);
      var frames := |payload| / 2;
      var sourceFrame := from;
      while sourceFrame < frames
        invariant from <= sourceFrame <= frames
        invariant RingShaped() && readySize == old(readySize) + sourceFrame - from
        invariant Contents() == old(Contents()) + samples[from..sourceFrame]
      {
        SlotIsModulo(readIndex, readySize, maximumBufferFrames);
        var writeIndex := (readIndex + readySize) % maximumBufferFrames;
        var value := ReadInt16Le(payload[2 * sourceFrame], payload[2 * sourceFrame + 1]);
        WriteChunk(writeIndex, [value]);
        assert samples[from..sourceFrame + 1] == samples[from..sourceFrame] + [value];
        sourceFrame := sourceFrame + 1;
      }
      assert samples[from..sourceFrame] == samples[from..];
    }

    method DiscardReady(frames: nat)
      requires RingShaped()
      modifies this`readIndex, this`readySize
      ensures RingShaped() && readySize == old(readySize) - Min(frames, old(readySize))
      ensures Contents() == old(Contents())[Min(frames, |old(Contents())|)..]
    {
      var discarded := Min(frames, readySize);
      UnrolledDrop(readyRing[..], readIndex, readySize, discarded);
      SlotIsModulo(readIndex, discarded, maximumBufferFrames);
      readIndex := (readIndex + discarded) % maximumBufferFrames;
      readySize := readySize - discarded;
    }

    /** Moves frames from the front of the ready queue to the output. */
    method CopyReady(output: array<Sample>, offset: nat) returns (copied: nat)
      requires RingHolds() && output != readyRing && offset <= output.Length
      modifies this`readIndex, this`readySize, this`ready, output
      ensures RingHolds() && copied == Min(output.Length - offset, |old(ready)|)
      ensures ready == old(ready)[copied..]
      ensures forall i :: 0 <= i < output.Length ==>
        output[i] == if offset <= i < offset + copied then old(ready)[i - offset].sample else old(output[i])
    {
      copied := Min(output.Length - offset, readySize);
      assert Contents()[copied..] == Samples(ready[copied..]);
      hide Unrolled;
      CopyContents(output, offset, copied);
      ready := ready[copied..];
    }

    /** The chunked copy out of the ring. */
    method CopyContents(output: array<Sample>, offset: nat, frames: nat)
      requires RingShaped() && output != readyRing && frames <= readySize && offset + frames <= output.Length
      modifies this`readIndex, this`readySize, output
      ensures RingShaped() && readySize == old(readySize) - frames && Contents() == old(Contents())[frames..]
      ensures forall i :: 0 <= i < output.Length ==>
        output[i] == if offset <= i < offset + frames then old(Contents())[i - offset] else old(output[i])
    {
      hide Unrolled;
      ghost var all := Contents();
      var copied := 0;
      while copied < frames
        invariant copied <= frames && RingShaped() && readySize == |all| - copied && Contents() == all[copied..]
        invariant forall i :: 0 <= i < output.Length ==>
          output[i] == if offset <= i < offset + copied then all[i - offset] else old(output[i])
      {
        var chunk := Min(frames - copied, maximumBufferFrames - readIndex);
        UnrolledChunk(readyRing[..], readIndex, readySize, chunk);
        assert forall i :: 0 <= i < chunk ==> readyRing[readIndex + i] == all[copied..][i];
        forall i | 0 <= i < chunk {
          output[offset + copied + i] := readyRing[readIndex + i];
        }
        DiscardReady(chunk);
        assert all[copied..][chunk..] == all[copied + chunk..];
        copied := copied + chunk;
      }
    }

    /** Fills the output with the frames `Pop` hands out, then with silence. */
    method PopInto(output: array<Sample>)
      requires Valid() && output != readyRing
      modifies this, readyRing, output
      ensures Valid() && View() == Pop(Cfg(), old(View()), output.Length)
      ensures var played := PopOutput(Cfg(), old(View()), output.Length);
        |played| <= output.Length && PlayedThenSilent(output[..], played)
    {
      hide Inv, Play, JitterSpec.Begin, StartupUnderrun;
      PopKeeps(Cfg(), View(), output.Length);
      hide RingHolds;
      forall i | 0 <= i < output.Length {
        output[i] := 0;
      }
      if output.Length == 0 {
        return;
      }
      Begin();
      if !stats.started {
        CountStartupUnderrun(output.Length);
      } else {
        PlayInto(output);
      }
      CountRendered(output.Length);
    }

    method CountStartupUnderrun(frames: nat)
      modifies this`stats
      ensures View() == StartupUnderrun(old(View()), frames)
    {
      stats := stats.(underrunEvents := stats.underrunEvents + 1,
                      underrunFrames := stats.underrunFrames + frames,
                      startupUnderrunEvents := stats.startupUnderrunEvents + 1,
                      startupUnderrunFrames := stats.startupUnderrunFrames + frames);
    }

    method CountRendered(frames: nat)
      requires RingHolds()
      modifies this`stats
      ensures RingHolds() && View() == Rendered(old(View()), frames)
    {
      stats := stats.(renderedFrames := stats.renderedFrames + frames);
      RefreshStats();
    }

    method Begin()
      requires RingHolds()
      modifies this, readyRing
      ensures RingHolds() && View() == JitterSpec.Begin(Cfg(), old(View())) && history.played == old(history.played)
    {
      stats := stats.(renderEvents := stats.renderEvents + 1);
      if !stats.started {
        PromotePlaysNothing(Cfg(), View());
        PromoteLocked();
        if readySize >= startThresholdFrames {
          stats := stats.(started := true);
        }
      }
    }

    /** The loop of `PopInto` over an output filled with silence. */
    method PlayInto(output: array<Sample>)
      requires RingHolds() && output != readyRing && PlayedThenSilent(output[..], [])
      modifies this, readyRing, output
      ensures RingHolds() && View() == Play(Cfg(), old(View()), output.Length)
      ensures old(history.played) <= history.played && |history.played| <= |old(history.played)| + output.Length
      ensures PlayedThenSilent(output[..], history.played[|old(history.played)|..])
    {
      hide RingHolds, Refill, Underrun;
      ghost var target := Play(Cfg(), View(), output.Length);
      ghost var played: seq<Frame> := [];
      var written := 0;
      var underrunRecorded := false;
      while written < output.Length
        invariant RingHolds() && written <= output.Length && !underrunRecorded
        invariant Play(Cfg(), View(), output.Length - written) == target
        invariant history.played == old(history.played) + played && |played| == written
        invariant PlayedThenSilent(output[..], played)
      {
        RefillReady();
        if readySize == 0 {
          var missing := output.Length - written;
          CountUnderrun(missing, underrunRecorded);
          underrunRecorded := true;
          break;
        }
        ghost var refilled := View();
        var n := CopyReady(output, written);
        history := history.(played := history.played + refilled.ready[..n]);
        written := written + n;
        played := played + refilled.ready[..n];
      }
      assert View() == target;
      assert history.played[|old(history.played)|..] == played;
    }

    /** The underrun counters; the event is counted unless it was `recorded` before. */
    method CountUnderrun(missing: nat, recorded: bool)
      modifies this`stats
      ensures !recorded ==> View() == Underrun(old(View()), missing)
      ensures recorded ==>
        stats == old(stats).(underrunFrames := old(stats).underrunFrames + missing,
                             afterStartUnderrunFrames := old(stats).afterStartUnderrunFrames + missing)
    {
      if !recorded {
        stats := stats.(underrunEvents := stats.underrunEvents + 1,
                        afterStartUnderrunEvents := stats.afterStartUnderrunEvents + 1);
      }
      stats := stats.(underrunFrames := stats.underrunFrames + missing,
                      afterStartUnderrunFrames := stats.afterStartUnderrunFrames + missing);
    }

    method RefillReady()
      requires RingHolds()
      modifies this, readyRing
      ensures RingHolds() && View() == Refill(Cfg(), old(View())) && readySize == |ready|
      ensures history.played == old(history.played)
    {
      if readySize == 0 {
        PromotePlaysNothing(Cfg(), View());
        PromoteLocked();
        SkipMissing();
      }
    }

    /** The inner loop of `PopInto`: drops stale packets and jumps over gaps until something is ready. */
    method SkipMissing()
      requires RingHolds()
      modifies this, readyRing
      ensures RingHolds() && View() == SkipGaps(Cfg(), old(View()))
      ensures history.played == old(history.played)
    {
      hide SkipStep, Unrolled, Samples;
      while readySize == 0 && haveSequence && pendingPackets != map[]
        invariant RingHolds() && SkipGaps(Cfg(), View()) == SkipGaps(Cfg(), old(View()))
        invariant history.played == old(history.played)
        decreases |pendingPackets|
      {
        SkipShrinks(Cfg(), View());
        SkipOnce();
      }
    }

    method SkipOnce()
      requires RingHolds() && pendingPackets != map[]
      modifies this, readyRing
      ensures RingHolds() && View() == SkipStep(Cfg(), old(View())) && history.played == old(history.played)
    {
      hide Promote, Unrolled, Samples;
      var first := FirstWaiting(pendingPackets);
      if first < expectedSequence {
        pendingPackets := pendingPackets - {first};
        stats := stats.(lateOrDuplicatePackets := stats.lateOrDuplicatePackets + 1);
      } else {
        stats := stats.(sequenceGaps := stats.sequenceGaps + first - expectedSequence);
        expectedSequence := first;
        PromotePlaysNothing(Cfg(), View());
        PromoteLocked();
      }
    }
  }

  /** The first key of the ordered map. */
  method FirstWaiting(packets: map<nat, seq<Sample>>) returns (first: nat)
    requires packets != map[]
    ensures first == FirstKey(packets)
  {
    FirstExists(packets.Keys);
    var k: nat :| k in packets.Keys && IsFirst(packets.Keys, k);
    assert k <= FirstKey(packets) <= k;
    first := k;
  }

  predicate PlayedThenSilent(output: seq<Sample>, played: seq<Frame>) {
    forall i :: 0 <= i < |output| ==> output[i] == if i < |played| then played[i].sample else 0
  }

  /** A packet that is due now may bypass the waiting map: `t` is `a` after appending it directly. */
  lemma AcceptDirect(cfg: Config, a: State, t: State, samples: seq<Sample>)
    requires a.haveSequence && Settled(a) && t.pending == a.pending && t.expected == a.expected + 1
    requires t.haveSequence && t.ready == LastN(a.ready + Tagged(a.history.epoch, a.expected, samples), cfg.capacity)
    requires t.stats == Appended(a.stats, |a.ready|, |samples|, |t.ready|)
    requires t.history == Enqueue(a, a.expected, samples).history.(appended := a.history.appended + [a.expected])
    ensures Promote(cfg, Enqueue(a, a.expected, samples)) == Promote(cfg, t)
  {
    var e := Enqueue(a, a.expected, samples);
    assert e.pending - {a.expected} == a.pending;
    assert TakeNext(cfg, e) == t;
  }

  lemma PromoteIdle(cfg: Config, s: State)
    requires s.expected !in s.pending
    ensures Promote(cfg, s) == s
  {
  }

  lemma EmptyWindow(a: seq<Frame>, b: seq<Frame>, n: nat)
    requires b == [] && |a| <= n
    ensures LastN(a + b, n) == a
  {
    assert a + b == a;
  }

  function Excess(total: nat, capacity: nat): nat {
    if total > capacity then total - capacity else 0
  }

  /** Dropping the overflow first from the old frames, then from the new ones, keeps the newest. */
  lemma KeepNewest(ready: seq<Frame>, incoming: seq<Frame>, a: seq<Sample>, b: seq<Sample>, capacity: nat)
    requires a == Samples(ready) && b == Samples(incoming)
    ensures var overflow := Excess(|a| + |b|, capacity);
      Samples(LastN(ready + incoming, capacity)) == a[Min(overflow, |a|)..] + b[overflow - Min(overflow, |a|)..]
  {
    assert Samples(ready + incoming) == a + b;
  }

  lemma {:induction false} PromotePlaysNothing(cfg: Config, s: State)
    ensures Promote(cfg, s).history.played == s.history.played
    decreases |s.pending|
  {
    if s.haveSequence && s.expected in s.pending {
      PromotePlaysNothing(cfg, TakeNext(cfg, s));
    }
  }
}
