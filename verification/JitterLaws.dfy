/**
 What each public operation of the jitter buffer does, said over the state before and after it
 and the constants of the program alone.
 */
module JitterLaws {
  import opened Basics
  import opened Pcm
  import opened JitterSpec
  import opened JitterInvariant
  import opened JitterPlayback

  // ----- pushing -----

  /** The samples of packets `first` up to `end`, one after the other. */
  function Consecutive(packets: map<nat, seq<Sample>>, first: nat, end: nat): seq<Sample>
    requires first <= end && forall k :: first <= k < end ==> k in packets
    decreases end - first
  {
    if first == end then [] else Consecutive(packets, first, end - 1) + packets[end - 1]
  }

  /** The newest samples that fit. */
  predicate KeepsNewest(kept: seq<Sample>, all: seq<Sample>, capacity: nat) {
    if |all| <= capacity then kept == all else kept == all[|all| - capacity..]
  }

  /** An empty packet does nothing, and neither does anything but the late counter for one that is late or waiting. */
  lemma PushIgnores(cfg: Config, s: State, sequence: nat, samples: seq<Sample>)
    requires Inv(cfg, s)
    ensures samples == [] ==> Push(cfg, s, sequence, samples) == s
    ensures samples != [] && s.haveSequence &&
            (sequence < s.expected <= sequence + 256
              || (s.expected <= sequence <= s.expected + 256 && sequence in s.pending)) ==>
      Push(cfg, s, sequence, samples) ==
        s.(stats := s.stats.(lateOrDuplicatePackets := s.stats.lateOrDuplicatePackets + 1))
  {
    hide Inv;
  }

  /** An early packet within 256 numbers waits, and nothing else moves. */
  lemma PushWaits(cfg: Config, s: State, sequence: nat, samples: seq<Sample>)
    requires Inv(cfg, s) && samples != [] && s.haveSequence
    requires s.expected < sequence <= s.expected + 256 && sequence !in s.pending
    ensures var t := Push(cfg, s, sequence, samples);
      && t.pending == s.pending[sequence := samples]
      && t.ready == s.ready && t.expected == s.expected && t.haveSequence
      && t.history.epoch == s.history.epoch && t.history.played == s.history.played
      && t.stats == s.stats.(packetsPushed := s.stats.packetsPushed + 1,
                             framesPushed := s.stats.framesPushed + |samples|)
  {
    hide Core;
    var e := Enqueue(s, sequence, samples);
    assert Promote(cfg, e) == e;
  }

  /** The waiting packets from the expected one up to the next missing one. */
  predicate TakesRun(s: State, t: State) {
    && s.expected <= t.expected && t.expected !in s.pending
    && (forall k :: s.expected <= k < t.expected ==> k in s.pending)
    && t.pending == (map k | k in s.pending && k >= t.expected :: s.pending[k])
  }

  /** The ready queue after taking that run, the largest filling so far, and what did not fit. */
  predicate AppendsRun(cfg: Config, s: State, t: State)
    requires TakesRun(s, t)
  {
    && KeepsNewest(Samples(t.ready), Samples(s.ready) + Consecutive(s.pending, s.expected, t.expected), cfg.capacity)
    && t.stats.maxFramesSeen == Max(s.stats.maxFramesSeen, |t.ready|)
    && t.stats.overflowDroppedFrames + |t.ready| ==
       s.stats.overflowDroppedFrames + |s.ready| + |Consecutive(s.pending, s.expected, t.expected)|
    && t.stats.sequenceGaps == s.stats.sequenceGaps
  }

  lemma RunStarts(s: State, n: State, t: State)
    requires s.expected in s.pending && n.expected == s.expected + 1 && n.pending == s.pending - {s.expected}
    requires TakesRun(n, t) && forall k :: k in s.pending ==> s.expected <= k
    ensures TakesRun(s, t)
  {
    forall k | s.expected <= k < t.expected ensures k in s.pending {
      assert k == s.expected || k in n.pending;
    }
    assert t.pending == (map k | k in s.pending && k >= t.expected :: s.pending[k]);
  }

  /** Appending in two steps, keeping the newest each time, is appending at once. */
  lemma KeepsNewestTwice(kept: seq<Sample>, a: seq<Sample>, b: seq<Sample>, rest: seq<Sample>, capacity: nat)
    requires KeepsNewest(kept, LastN(a + b, capacity) + rest, capacity)
    ensures KeepsNewest(kept, a + (b + rest), capacity)
  {
    assert a + b + rest == a + (b + rest);
    LastNAppend(a + b, rest, capacity);
  }

  lemma RunAppends(cfg: Config, s: State, t: State)
    requires s.expected in s.pending && |s.pending[s.expected]| > 0 && |s.ready| <= cfg.capacity
    requires TakesRun(s, t) && TakesRun(TakeNext(cfg, s), t) && AppendsRun(cfg, TakeNext(cfg, s), t)
    ensures AppendsRun(cfg, s, t)
  {
    hide Consecutive, Samples, Tagged, LastN, KeepsNewest;
    var n, samples := TakeNext(cfg, s), s.pending[s.expected];
    var rest := Consecutive(s.pending, n.expected, t.expected);
    ConsecutiveFront(s.pending, s.expected, t.expected);
    ConsecutiveSame(n.pending, s.pending, n.expected, t.expected);
    SamplesOfWindow(s.ready, s.history.epoch, s.expected, samples, cfg.capacity);
    KeepsNewestTwice(Samples(t.ready), Samples(s.ready), samples, rest, cfg.capacity);
    KeptLength(Samples(t.ready), Samples(n.ready) + rest, cfg.capacity);
  }

  lemma KeptLength(kept: seq<Sample>, all: seq<Sample>, capacity: nat)
    requires KeepsNewest(kept, all, capacity)
    ensures |kept| == Min(|all|, capacity)
  {
  }

  /** Promotion takes the unbroken run of waiting packets from the expected one on. */
  lemma {:induction false} PromoteTakesRun(cfg: Config, s: State)
    requires Core(cfg, s) && s.haveSequence && cfg.capacity > 0
    ensures var t := Promote(cfg, s); TakesRun(s, t) && AppendsRun(cfg, s, t)
    decreases |s.pending|
  {
    hide TakesRun, AppendsRun, InOrder, Authentic, Accounted;
    if s.expected in s.pending {
      var n := TakeNext(cfg, s);
      TakeNextKeeps(cfg, s);
      PromoteTakesRun(cfg, n);
      RunStarts(s, n, Promote(cfg, n));
      RunAppends(cfg, s, Promote(cfg, n));
    } else {
      NoRun(cfg, s);
    }
  }

  lemma NoRun(cfg: Config, s: State)
    requires Windowed(s) && Bounded(cfg, s) && s.expected !in s.pending
    ensures TakesRun(s, s) && AppendsRun(cfg, s, s)
  {
    assert Samples(s.ready) + [] == Samples(s.ready);
    assert s.pending == (map k | k in s.pending && k >= s.expected :: s.pending[k]);
  }

  lemma {:induction false} ConsecutiveFront(packets: map<nat, seq<Sample>>, first: nat, end: nat)
    requires first < end && forall k :: first <= k < end ==> k in packets
    ensures Consecutive(packets, first, end) == packets[first] + Consecutive(packets, first + 1, end)
    decreases end
  {
    if end == first + 1 {
      assert [] + packets[first] == packets[first] + [];
    } else {
      ConsecutiveFront(packets, first, end - 1);
      var middle, last := Consecutive(packets, first + 1, end - 1), packets[end - 1];
      assert packets[first] + middle + last == packets[first] + (middle + last);
    }
  }

  lemma {:induction false} ConsecutiveSame(a: map<nat, seq<Sample>>, b: map<nat, seq<Sample>>, first: nat, end: nat)
    requires first <= end && forall k :: first <= k < end ==> k in a && k in b && a[k] == b[k]
    ensures Consecutive(a, first, end) == Consecutive(b, first, end)
    decreases end
  {
    if end > first {
      ConsecutiveSame(a, b, first, end - 1);
    }
  }

  /**
   The expected packet goes to the ready queue with the unbroken run of waiting packets behind
   it; the queue keeps the newest frames, and every frame that does not fit is counted.
   */
  lemma PushDue(cfg: Config, s: State, samples: seq<Sample>)
    requires Inv(cfg, s) && cfg.capacity > 0 && samples != [] && s.haveSequence
    ensures var t := Push(cfg, s, s.expected, samples); var waiting := s.pending[s.expected := samples];
      && s.expected < t.expected && t.expected !in waiting
      && (forall k :: s.expected <= k < t.expected ==> k in waiting)
      && t.pending == (map k | k in s.pending && k >= t.expected :: s.pending[k])
      && (var all := Samples(s.ready) + Consecutive(waiting, s.expected, t.expected);
          && KeepsNewest(Samples(t.ready), all, cfg.capacity)
          && t.stats == s.stats.(packetsPushed := s.stats.packetsPushed + 1,
                                 framesPushed := s.stats.framesPushed + |samples|,
                                 overflowDroppedFrames := s.stats.overflowDroppedFrames + |all| - |t.ready|,
                                 maxFramesSeen := Max(s.stats.maxFramesSeen, |t.ready|),
                                 currentFrames := |t.ready|))
      && t.haveSequence && t.history.epoch == s.history.epoch && t.history.played == s.history.played
  {
    hide Inv, Core, Promote, Push, TakesRun, AppendsRun, Consecutive, KeepsNewest, Samples, Max;
    DuePromotes(cfg, s, samples);
    var t := Promote(cfg, Enqueue(s, s.expected, samples));
    DueTakesRun(s, samples, t);
    DueAppendsRun(cfg, s, samples, t);
  }

  lemma DuePromotes(cfg: Config, s: State, samples: seq<Sample>)
    requires Inv(cfg, s) && cfg.capacity > 0 && samples != [] && s.haveSequence
    ensures var e := Enqueue(s, s.expected, samples); var t := Promote(cfg, e);
      && Push(cfg, s, s.expected, samples) == Refresh(Counted(t, |samples|))
      && SameButMoved(e, t) && TakesRun(e, t) && AppendsRun(cfg, e, t)
  {
    hide Core, Balanced, Promote, TakesRun, AppendsRun;
    var e := Enqueue(s, s.expected, samples);
    EnqueueKeeps(cfg, s, s.expected, samples);
    PromoteKeeps(cfg, e);
    PromoteTakesRun(cfg, e);
  }

  lemma DueTakesRun(s: State, samples: seq<Sample>, t: State)
    requires TakesRun(Enqueue(s, s.expected, samples), t)
    ensures var waiting := s.pending[s.expected := samples];
      && s.expected < t.expected && t.expected !in waiting
      && (forall k :: s.expected <= k < t.expected ==> k in waiting)
      && t.pending == (map k | k in s.pending && k >= t.expected :: s.pending[k])
  {
    assert s.expected in s.pending[s.expected := samples];
  }

  lemma DueAppendsRun(cfg: Config, s: State, samples: seq<Sample>, t: State)
    requires TakesRun(Enqueue(s, s.expected, samples), t) && AppendsRun(cfg, Enqueue(s, s.expected, samples), t)
    ensures var all := Samples(s.ready) + Consecutive(s.pending[s.expected := samples], s.expected, t.expected);
      && KeepsNewest(Samples(t.ready), all, cfg.capacity)
      && t.stats.overflowDroppedFrames == s.stats.overflowDroppedFrames + |all| - |t.ready|
      && t.stats.maxFramesSeen == Max(s.stats.maxFramesSeen, |t.ready|)
      && t.stats.sequenceGaps == s.stats.sequenceGaps
  {
    hide KeepsNewest, Samples;
  }

  /** The state after a packet that starts a stream of its own in an empty buffer. */
  predicate StartsAt(cfg: Config, s: State, t: State, sequence: nat, samples: seq<Sample>) {
    && t.haveSequence && t.expected == sequence + 1 && t.pending == map[]
    && KeepsNewest(Samples(t.ready), samples, cfg.capacity)
    && t.history.played == s.history.played
    && t.stats == s.stats.(started := t.stats.started, sequenceRestarts := t.stats.sequenceRestarts,
                           packetsPushed := s.stats.packetsPushed + 1,
                           framesPushed := s.stats.framesPushed + |samples|,
                           overflowDroppedFrames := s.stats.overflowDroppedFrames + |samples| - |t.ready|,
                           maxFramesSeen := Max(s.stats.maxFramesSeen, |t.ready|),
                           currentFrames := |t.ready|)
  }

  lemma PushAlone(cfg: Config, a: State, samples: seq<Sample>)
    requires Inv(cfg, a) && cfg.capacity > 0 && samples != [] && a.haveSequence
    requires a.pending == map[] && a.ready == []
    ensures var t := Push(cfg, a, a.expected, samples);
      && StartsAt(cfg, a, t, a.expected, samples) && t.stats.sequenceRestarts == a.stats.sequenceRestarts
      && t.stats.started == a.stats.started && t.history.epoch == a.history.epoch
  {
    PushDue(cfg, a, samples);
    var t := Push(cfg, a, a.expected, samples);
    hide Push, Inv;
    assert t.expected - 1 in map[a.expected := samples];
    assert Samples([]) + ([] + samples) == samples;
  }

  /**
   More than 256 numbers behind or ahead of the expected one the stream restarts at the packet:
   a new epoch, nothing waiting, playback stopped, and only this packet ready.
   */
  lemma PushRestarts(cfg: Config, s: State, sequence: nat, samples: seq<Sample>)
    requires Inv(cfg, s) && cfg.capacity > 0 && samples != [] && s.haveSequence
    requires sequence + 256 < s.expected || sequence > s.expected + 256
    ensures var t := Push(cfg, s, sequence, samples);
      && StartsAt(cfg, s, t, sequence, samples) && !t.stats.started
      && t.stats.sequenceRestarts == s.stats.sequenceRestarts + 1 && t.history.epoch == s.history.epoch + 1
  {
    hide Core, Balanced, Promote;
    AdmitKeeps(cfg, s, sequence);
    var a := Admit(s, sequence);
    PushAlone(cfg, a, samples);
    assert Push(cfg, s, sequence, samples) == Push(cfg, a, sequence, samples);
  }

  /** The first packet of a new or reset buffer starts the stream at its number. */
  lemma PushFirst(cfg: Config, s: State, sequence: nat, samples: seq<Sample>)
    requires Inv(cfg, s) && cfg.capacity > 0 && samples != [] && !s.haveSequence
    ensures var t := Push(cfg, s, sequence, samples);
      && StartsAt(cfg, s, t, sequence, samples)
      && t.stats.sequenceRestarts == s.stats.sequenceRestarts && t.stats.started == s.stats.started
      && t.history.epoch == s.history.epoch
  {
    AdmitKeeps(cfg, s, sequence);
    var a := Admit(s, sequence);
    assert a.pending == map[] && a.ready == [];
    hide Core, Balanced, Promote;
    PushAlone(cfg, a, samples);
    assert Push(cfg, s, sequence, samples) == Push(cfg, a, sequence, samples);
  }

  /** The stream restarts exactly for a non-empty packet more than 256 numbers away from the expected one. */
  lemma RestartsExactly(cfg: Config, s: State, sequence: nat, samples: seq<Sample>)
    requires Inv(cfg, s) && cfg.capacity > 0
    ensures var t := Push(cfg, s, sequence, samples);
      var far := samples != [] && s.haveSequence && (sequence + 256 < s.expected || sequence > s.expected + 256);
      && t.stats.sequenceRestarts == s.stats.sequenceRestarts + (if far then 1 else 0)
      && t.history.epoch == s.history.epoch + (if far then 1 else 0)
      && t.stats.started == (s.stats.started && !far)
  {
    hide Core, Balanced;
    if samples != [] && !IsLate(s, sequence) {
      AdmitKeeps(cfg, s, sequence);
      var a := Admit(s, sequence);
      if sequence !in a.pending {
        EnqueueKeeps(cfg, a, sequence, samples);
        PromoteKeeps(cfg, Enqueue(a, sequence, samples));
      }
    }
  }

  /** A reset holds nothing, expects any packet, has stopped playback and keeps every other counter. */
  lemma ResetEmpties(s: State)
    ensures var t := JitterSpec.Reset(s);
      && t.ready == [] && t.pending == map[] && t.expected == 0 && !t.haveSequence
      && t.stats == s.stats.(started := false, currentFrames := 0)
      && t.history.played == s.history.played && t.history.epoch == s.history.epoch + 1
  {
  }

  // ----- popping -----

  /**
   When playback starts: exactly when it had started or the ready queue has reached the threshold.
   Until then a pop only counts silence; from then on it plays what is ready first.
   */
  lemma PopStarts(cfg: Config, s: State, frames: nat)
    requires Inv(cfg, s) && cfg.capacity > 0 && frames > 0
    ensures var t := Pop(cfg, s, frames);
      && (t.stats.started <==> s.stats.started || |s.ready| >= cfg.startThreshold)
      && (!t.stats.started ==>
            t == s.(stats := s.stats.(renderEvents := s.stats.renderEvents + 1,
                                      renderedFrames := s.stats.renderedFrames + frames,
                                      underrunEvents := s.stats.underrunEvents + 1,
                                      underrunFrames := s.stats.underrunFrames + frames,
                                      startupUnderrunEvents := s.stats.startupUnderrunEvents + 1,
                                      startupUnderrunFrames := s.stats.startupUnderrunFrames + frames)))
      && (t.stats.started ==>
            && s.ready[..Min(frames, |s.ready|)] <= PopOutput(cfg, s, frames)
            && t.stats.renderEvents == s.stats.renderEvents + 1
            && t.stats.renderedFrames == s.stats.renderedFrames + frames
            && t.stats.startupUnderrunEvents == s.stats.startupUnderrunEvents
            && t.stats.startupUnderrunFrames == s.stats.startupUnderrunFrames)
  {
    hide Core, Settled, Holdings, Play, Begin;
    PopKeeps(cfg, s, frames);
    BeginKeeps(cfg, s);
    BeginStarts(cfg, s);
    var b := Begin(cfg, s);
    if b.stats.started {
      PlayKeeps(cfg, b, frames);
      PlaysReadyFirst(cfg, b, frames);
    }
  }

  lemma BeginStarts(cfg: Config, s: State)
    requires Inv(cfg, s)
    ensures Begin(cfg, s).stats.started <==> s.stats.started || |s.ready| >= cfg.startThreshold
  {
    hide Core, Balanced;
    var c := s.(stats := s.stats.(renderEvents := s.stats.renderEvents + 1));
    assert Promote(cfg, c) == c;
  }

  lemma PlaysReadyFirst(cfg: Config, s: State, need: nat)
    requires Core(cfg, s) && cfg.capacity > 0 && Settled(s)
    ensures s.history.played + s.ready[..Min(need, |s.ready|)] <= Play(cfg, s, need).history.played
  {
    hide Core, Settled, Holdings;
    if need > 0 && s.ready != [] {
      var n := Min(need, |s.ready|);
      EmptyHanded(cfg, s, need);
      EmitKeeps(cfg, s, n);
      PlayKeeps(cfg, Emit(s, n), need - n);
    } else {
      PlayKeeps(cfg, s, need);
      assert s.ready[..0] == [];
    }
  }

  /** As long as what is ready suffices, a started pop takes exactly that and touches nothing that waits. */
  lemma PopWithinReady(cfg: Config, s: State, frames: nat)
    requires Inv(cfg, s) && cfg.capacity > 0 && 0 < frames <= |s.ready|
    requires s.stats.started || |s.ready| >= cfg.startThreshold
    ensures Pop(cfg, s, frames) ==
      s.(ready := s.ready[frames..],
         stats := s.stats.(started := true, renderEvents := s.stats.renderEvents + 1,
                           renderedFrames := s.stats.renderedFrames + frames, currentFrames := |s.ready| - frames),
         history := s.history.(played := s.history.played + s.ready[..frames]))
  {
    hide Core, Balanced;
    BeginKeeps(cfg, s);
    BeginStarts(cfg, s);
    EmptyHanded(cfg, Begin(cfg, s), frames);
    PlayNothing(cfg, Emit(Begin(cfg, s), frames));
    hide Begin, Play;
  }

  /** The waiting packets from a number on. */
  function FromNumber(packets: map<nat, seq<Sample>>, k: nat): map<nat, seq<Sample>> {
    map j | j in packets && j >= k :: packets[j]
  }

  lemma FromNumberShrinks(packets: map<nat, seq<Sample>>, k: nat)
    requires exists j :: j in packets && j < k
    ensures |FromNumber(packets, k)| < |packets|
  {
    var j :| j in packets && j < k;
    var kept := FromNumber(packets, k);
    assert kept.Keys < packets.Keys by {
      assert j in packets.Keys && j !in kept.Keys;
    }
    SmallerSet(kept.Keys, packets.Keys);
    assert |kept| == |kept.Keys| && |packets| == |packets.Keys|;
  }

  lemma {:induction false} SmallerSet(a: set<nat>, b: set<nat>)
    requires a < b
    ensures |a| < |b|
  {
    if a != {} {
      var x :| x in a;
      SmallerSet(a - {x}, b - {x});
    }
  }

  lemma FromNumberSteps(packets: map<nat, seq<Sample>>, k: nat)
    requires k in packets
    ensures |FromNumber(packets, k + 1)| < |FromNumber(packets, k)|
  {
    var all, rest := FromNumber(packets, k), FromNumber(packets, k + 1);
    assert k in all.Keys && k !in rest.Keys;
    assert rest.Keys < all.Keys;
    SmallerSet(rest.Keys, all.Keys);
    assert |rest| == |rest.Keys| && |all| == |all.Keys|;
  }

  /** The first number from `k` on that does not wait. */
  function RunEnd(packets: map<nat, seq<Sample>>, k: nat): (end: nat)
    ensures k <= end && end !in packets && forall j :: k <= j < end ==> j in packets
    decreases |FromNumber(packets, k)|
  {
    if k in packets then
      FromNumberSteps(packets, k);
      RunEnd(packets, k + 1)
    else k
  }

  function Newest(samples: seq<Sample>, capacity: nat): seq<Sample> {
    if |samples| <= capacity then samples else samples[|samples| - capacity..]
  }

  /**
   What the waiting packets will play, in sequence order with gaps jumped over. Each unbroken run
   of them enters the ring at once, which keeps its newest frames.
   */
  ghost function Playable(packets: map<nat, seq<Sample>>, capacity: nat): seq<Sample>
    decreases |packets|
  {
    if packets == map[] then []
    else
      var first := FirstKey(packets);
      var end := RunEnd(packets, first);
      assert first in packets && first < end;
      FromNumberShrinks(packets, end);
      Newest(Consecutive(packets, first, end), capacity) + Playable(FromNumber(packets, end), capacity)
  }

  /** Everything that will be played, in playing order. */
  ghost function Held(cfg: Config, s: State): seq<Sample> {
    Samples(s.ready) + Playable(s.pending, cfg.capacity)
  }

  /** Jumping to the first waiting packet of a dry ring moves its run into the ring. */
  lemma RunEnters(cfg: Config, s: State)
    requires Core(cfg, s) && s.haveSequence && cfg.capacity > 0 && s.ready == [] && s.pending != map[]
    ensures Held(cfg, Promote(cfg, SkipTo(s, FirstKey(s.pending)))) == Held(cfg, s)
  {
    hide Core, Promote, Consecutive, RunEnd, Samples;
    SkipToKeeps(cfg, s);
    var first := FirstKey(s.pending);
    var j := SkipTo(s, first);
    PromoteTakesRun(cfg, j);
    var t := Promote(cfg, j);
    var end := RunEnd(s.pending, first);
    assert t.expected == end;
    assert t.pending == FromNumber(s.pending, end);
    NoSamples();
    assert [] + Consecutive(s.pending, first, end) == Consecutive(s.pending, first, end);
    assert [] + Playable(s.pending, cfg.capacity) == Playable(s.pending, cfg.capacity);
  }

  lemma NoSamples()
    ensures Samples([]) == []
  {
  }

  lemma RefillHolds(cfg: Config, s: State)
    requires Core(cfg, s) && cfg.capacity > 0 && Settled(s)
    ensures Held(cfg, Refill(cfg, s)) == Held(cfg, s)
  {
    hide InOrder, Authentic, Accounted, Playable;
    if s.ready == [] {
      PromoteKeeps(cfg, s);
      SkipGapsOnce(cfg, s);
      if s.pending != map[] {
        RunEnters(cfg, s);
      }
    }
  }

  /** Taking the front of everything held: what was played, and what is left. */
  predicate TakesFront(s: State, t: State, held: seq<Sample>, left: seq<Sample>, need: nat) {
    && s.history.played <= t.history.played
    && Samples(t.history.played[|s.history.played|..]) == held[..Min(need, |held|)]
    && left == held[Min(need, |held|)..]
    && t.stats.underrunFrames == s.stats.underrunFrames + need - Min(need, |held|)
    && t.stats.underrunEvents == s.stats.underrunEvents + (if need > |held| then 1 else 0)
  }

  lemma {:induction false} PlaysFront(cfg: Config, s: State, need: nat)
    requires Core(cfg, s) && cfg.capacity > 0 && Settled(s)
    ensures var t := Play(cfg, s, need); TakesFront(s, t, Held(cfg, s), Held(cfg, t), need)
    decreases need
  {
    hide Core, Settled, Holdings, Refill, Playable, TakesFront;
    if need == 0 {
      NothingTaken(cfg, s);
    } else {
      RefillKeeps(cfg, s);
      RefillHolds(cfg, s);
      var r := Refill(cfg, s);
      if r.ready == [] {
        NothingHeld(cfg, s, need);
      } else {
        var n := Min(need, |r.ready|);
        EmitKeeps(cfg, r, n);
        PlaysFront(cfg, Emit(r, n), need - n);
        FrontExtends(cfg, s, r, n, Play(cfg, Emit(r, n), need - n), need);
      }
    }
  }

  lemma NothingTaken(cfg: Config, s: State)
    ensures TakesFront(s, s, Held(cfg, s), Held(cfg, s), 0)
  {
    hide Playable;
  }

  lemma NothingHeld(cfg: Config, s: State, need: nat)
    requires s.ready == [] && s.pending == map[] && need > 0
    ensures TakesFront(s, Underrun(s, need), Held(cfg, s), Held(cfg, Underrun(s, need)), need)
  {
    assert Held(cfg, s) == [] && Held(cfg, Underrun(s, need)) == [];
  }

  lemma FrontExtends(cfg: Config, s: State, r: State, n: nat, t: State, need: nat)
    requires 0 < n <= need && n <= |r.ready| && SameButMoved(s, r) && Held(cfg, r) == Held(cfg, s)
    requires TakesFront(Emit(r, n), t, Held(cfg, Emit(r, n)), Held(cfg, t), need - n)
    ensures TakesFront(s, t, Held(cfg, s), Held(cfg, t), need)
  {
    hide Playable;
    var e := Emit(r, n);
    var before, after := s.history.played, t.history.played;
    assert Samples(r.ready) == Samples(r.ready[..n]) + Samples(r.ready[n..]);
    assert Held(cfg, s) == Samples(r.ready[..n]) + Held(cfg, e);
    assert after[|before|..] == r.ready[..n] + after[|e.history.played|..];
    assert Samples(after[|before|..]) == Samples(r.ready[..n]) + Samples(after[|e.history.played|..]);
  }

  /**
   What a started pop plays: the front of everything held, ready frames first, then the waiting
   packets in sequence order with gaps jumped over; silence is counted only when all of it is
   used up. What is not played is still held.
   */
  lemma PopPlaysFront(cfg: Config, s: State, frames: nat)
    requires Inv(cfg, s) && cfg.capacity > 0 && frames > 0
    requires s.stats.started || |s.ready| >= cfg.startThreshold
    ensures var t := Pop(cfg, s, frames);
      && TakesFront(s, t, Held(cfg, s), Held(cfg, t), frames)
      && Samples(PopOutput(cfg, s, frames)) == Held(cfg, s)[..Min(frames, |Held(cfg, s)|)]
  {
    hide Core, Settled, Holdings, Play, Begin, Playable;
    BeginKeeps(cfg, s);
    BeginStarts(cfg, s);
    PlaysFront(cfg, Begin(cfg, s), frames);
  }
}
