/** What playback does not depend on: the order packets arrive in and the render period. */
module JitterPlayback {
  import opened Basics
  import opened Pcm
  import opened JitterSpec
  import opened JitterInvariant

  // ----- the arrival order -----

  datatype Arrival = Arrival(sequence: nat, samples: seq<Sample>)

  ghost function PushAll(cfg: Config, s: State, arrivals: seq<Arrival>): State {
    if arrivals == [] then s
    else
      var last := arrivals[|arrivals| - 1];
      Push(cfg, PushAll(cfg, s, arrivals[..|arrivals| - 1]), last.sequence, last.samples)
  }

  predicate Arrived(arrivals: seq<Arrival>, k: nat) {
    exists i :: 0 <= i < |arrivals| && arrivals[i].sequence == k
  }

  /** The samples of the first arrival of packet `k`. */
  function FirstCopy(arrivals: seq<Arrival>, k: nat): seq<Sample>
    requires Arrived(arrivals, k)
  {
    if arrivals[0].sequence == k then arrivals[0].samples else FirstCopy(arrivals[1..], k)
  }

  /** First copies of packets `base` up to `base + n`, in sequence order. */
  function InSequence(arrivals: seq<Arrival>, base: nat, n: nat): seq<Sample>
    requires forall k :: base <= k < base + n ==> Arrived(arrivals, k)
  {
    if n == 0 then [] else InSequence(arrivals, base, n - 1) + FirstCopy(arrivals, base + n - 1)
  }

  lemma {:induction false} FirstCopyExtends(before: seq<Arrival>, last: Arrival, k: nat)
    ensures Arrived(before + [last], k) <==> Arrived(before, k) || last.sequence == k
    ensures Arrived(before, k) ==> FirstCopy(before + [last], k) == FirstCopy(before, k)
    ensures !Arrived(before, k) && last.sequence == k ==> FirstCopy(before + [last], k) == last.samples
  {
    var all := before + [last];
    if before != [] {
      assert all[1..] == before[1..] + [last];
      FirstCopyExtends(before[1..], last, k);
      assert Arrived(before, k) <==> before[0].sequence == k || Arrived(before[1..], k) by {
        if Arrived(before, k) && before[0].sequence != k {
          var i :| 0 <= i < |before| && before[i].sequence == k;
          assert before[1..][i - 1].sequence == k;
        }
      }
    }
    if Arrived(before, k) || last.sequence == k {
      var i :| 0 <= i < |all| && all[i].sequence == k;
    }
  }

  /** The frames of the current epoch from its start up to a stream position, as accepted. */
  ghost function Stream(h: History, upTo: nat): seq<Sample>
    requires h.start <= upTo && forall k :: h.start <= k < upTo ==> (h.epoch, k) in h.accepted
    decreases upTo - h.start
  {
    if upTo == h.start then [] else Stream(h, upTo - 1) + h.accepted[(h.epoch, upTo - 1)]
  }

  /** Nothing was skipped, played or restarted in this epoch: the ready queue is the tail of its stream. */
  ghost predicate Assembled(cfg: Config, s: State, dropped: int) {
    && s.history.start <= s.expected
    && (forall k :: s.history.start <= k < s.expected ==> (s.history.epoch, k) in s.history.accepted)
    && Samples(s.ready) == LastN(Stream(s.history, s.expected), cfg.capacity)
    && s.stats.overflowDroppedFrames + |s.ready| == dropped + |Stream(s.history, s.expected)|
  }

  lemma LastNAppend<T>(a: seq<T>, b: seq<T>, n: nat)
    ensures LastN(LastN(a, n) + b, n) == LastN(a + b, n)
  {
  }

  lemma SamplesOfWindow(ready: seq<Frame>, epoch: nat, sequence: nat, samples: seq<Sample>, n: nat)
    ensures Samples(LastN(ready + Tagged(epoch, sequence, samples), n)) == LastN(Samples(ready) + samples, n)
  {
    assert Samples(ready + Tagged(epoch, sequence, samples)) == Samples(ready) + samples;
  }

  lemma {:induction false} StreamStable(h: History, g: History, upTo: nat)
    requires h.start <= upTo && g.start == h.start && g.epoch == h.epoch
    requires forall k :: h.start <= k < upTo ==>
      (h.epoch, k) in h.accepted && (h.epoch, k) in g.accepted && g.accepted[(h.epoch, k)] == h.accepted[(h.epoch, k)]
    ensures Stream(h, upTo) == Stream(g, upTo)
    decreases upTo
  {
    if upTo > h.start {
      StreamStable(h, g, upTo - 1);
    }
  }

  lemma TakeNextAssembles(cfg: Config, s: State, dropped: int)
    requires Accounted(s) && s.expected in s.pending && Assembled(cfg, s, dropped)
    ensures Assembled(cfg, TakeNext(cfg, s), dropped)
  {
    var t := TakeNext(cfg, s);
    var samples := s.pending[s.expected];
    var stream := Stream(s.history, s.expected);
    assert s.history.accepted[(s.history.epoch, s.expected)] == samples;
    StreamStable(s.history, t.history, s.expected);
    assert Stream(t.history, t.expected) == stream + samples;
    hide Accounted, Stream;
    SamplesOfWindow(s.ready, s.history.epoch, s.expected, samples, cfg.capacity);
    LastNAppend(stream, samples, cfg.capacity);
  }

  lemma {:induction false} PromoteAssembles(cfg: Config, s: State, dropped: int)
    requires Core(cfg, s) && Assembled(cfg, s, dropped)
    ensures var t := Promote(cfg, s);
      && Assembled(cfg, t, dropped) && t.history.start == s.history.start
      && t.stats.sequenceGaps == s.stats.sequenceGaps
    decreases |s.pending|
  {
    hide Assembled, Windowed, InOrder, Authentic, Accounted, Bounded;
    if s.haveSequence && s.expected in s.pending {
      TakeNextAssembles(cfg, s, dropped);
      TakeNextKeeps(cfg, s);
      PromoteAssembles(cfg, TakeNext(cfg, s), dropped);
    }
  }

  /** The state `t` after `arrivals` from a state `s` without a stream. */
  ghost predicate Collected(cfg: Config, s: State, arrivals: seq<Arrival>, base: nat, t: State) {
    && Inv(cfg, t) && t.haveSequence && t.history.start == base && t.history.epoch == s.history.epoch
    && Assembled(cfg, t, s.stats.overflowDroppedFrames)
    && (forall k: nat :: (t.history.epoch, k) in t.history.accepted <==> Arrived(arrivals, k))
    && (forall k: nat :: Arrived(arrivals, k) ==> t.history.accepted[(t.history.epoch, k)] == FirstCopy(arrivals, k))
    && t.stats.sequenceGaps == s.stats.sequenceGaps && t.stats.sequenceRestarts == s.stats.sequenceRestarts
    && t.stats.packetsPushed - s.stats.packetsPushed == |Numbers(arrivals)|
    && t.stats.lateOrDuplicatePackets - s.stats.lateOrDuplicatePackets == |arrivals| - |Numbers(arrivals)|
  }

  function Numbers(arrivals: seq<Arrival>): set<nat> {
    set i | 0 <= i < |arrivals| :: arrivals[i].sequence
  }

  predicate InRange(arrivals: seq<Arrival>, base: nat, n: nat) {
    forall i :: 0 <= i < |arrivals| ==> base <= arrivals[i].sequence < base + n && arrivals[i].samples != []
  }

  lemma NumbersExtends(before: seq<Arrival>, last: Arrival)
    ensures Numbers(before + [last]) == Numbers(before) + {last.sequence}
    ensures last.sequence in Numbers(before) <==> Arrived(before, last.sequence)
  {
    var all := before + [last];
    forall k | k in Numbers(before) + {last.sequence} ensures k in Numbers(all) {
      if k in Numbers(before) {
        var i :| 0 <= i < |before| && before[i].sequence == k;
        assert all[i].sequence == k;
      } else {
        assert all[|before|].sequence == k;
      }
    }
  }

  lemma CollectExtends(cfg: Config, s: State, before: seq<Arrival>, last: Arrival, base: nat, t: State, u: State)
    requires forall k: nat :: (t.history.epoch, k) in t.history.accepted <==> Arrived(before, k)
    requires forall k: nat :: Arrived(before, k) ==> t.history.accepted[(t.history.epoch, k)] == FirstCopy(before, k)
    requires u.history.epoch == t.history.epoch
    requires u.history.accepted == if Arrived(before, last.sequence) then t.history.accepted
                                   else t.history.accepted[(t.history.epoch, last.sequence) := last.samples]
    ensures forall k: nat :: (u.history.epoch, k) in u.history.accepted <==> Arrived(before + [last], k)
    ensures forall k: nat :: Arrived(before + [last], k) ==>
      u.history.accepted[(u.history.epoch, k)] == FirstCopy(before + [last], k)
  {
    forall k: nat
      ensures (u.history.epoch, k) in u.history.accepted <==> Arrived(before + [last], k)
      ensures Arrived(before + [last], k) ==> u.history.accepted[(u.history.epoch, k)] == FirstCopy(before + [last], k)
    {
      FirstCopyExtends(before, last, k);
    }
  }

  /** The stream position never runs past the numbers that arrived. */
  lemma ExpectedInRange(cfg: Config, s: State, before: seq<Arrival>, base: nat, n: nat, t: State)
    requires before != [] && InRange(before, base, n) && Collected(cfg, s, before, base, t)
    ensures base <= t.expected <= base + n
  {
    if t.expected > base {
      assert Arrived(before, t.expected - 1);
    }
  }

  lemma InRangeParts(before: seq<Arrival>, last: Arrival, base: nat, n: nat)
    requires InRange(before + [last], base, n)
    ensures InRange(before, base, n) && base <= last.sequence < base + n && last.samples != []
  {
    var all := before + [last];
    assert all[|before|] == last && forall i :: 0 <= i < |before| ==> all[i] == before[i];
  }

  lemma PushCollects(cfg: Config, s: State, before: seq<Arrival>, last: Arrival, base: nat, n: nat, t: State)
    requires before != [] && InRange(before + [last], base, n) && n <= RESTART_PACKET_GAP
    requires Collected(cfg, s, before, base, t)
    ensures Collected(cfg, s, before + [last], base, Push(cfg, t, last.sequence, last.samples))
  {
    hide Core, Balanced, Assembled, Push, InRange, FirstCopy, Settled;
    InRangeParts(before, last, base, n);
    ExpectedInRange(cfg, s, before, base, n, t);
    NumbersExtends(before, last);
    var u := Push(cfg, t, last.sequence, last.samples);
    PushKeeps(cfg, t, last.sequence, last.samples);
    if Arrived(before, last.sequence) {
      KnownIsLate(cfg, t, last.sequence, last.samples);
      AssembledStats(cfg, t, u, s.stats.overflowDroppedFrames);
    } else {
      UnknownIsAccepted(cfg, t, last.sequence, last.samples, s.stats.overflowDroppedFrames);
    }
    CollectExtends(cfg, s, before, last, base, t, u);
  }

  lemma AssembledStats(cfg: Config, s: State, t: State, dropped: int)
    requires Assembled(cfg, s, dropped) && t == s.(stats := t.stats)
    requires t.stats.overflowDroppedFrames == s.stats.overflowDroppedFrames
    ensures Assembled(cfg, t, dropped)
  {
  }

  lemma KnownIsLate(cfg: Config, t: State, sequence: nat, samples: seq<Sample>)
    requires Inv(cfg, t) && t.haveSequence && samples != [] && (t.history.epoch, sequence) in t.history.accepted
    requires t.expected <= sequence + RESTART_PACKET_GAP
    ensures Push(cfg, t, sequence, samples) == Late(t)
  {
    if sequence >= t.expected {
      assert sequence in t.pending;
    }
  }

  lemma UnknownIsAccepted(cfg: Config, t: State, sequence: nat, samples: seq<Sample>, dropped: int)
    requires Inv(cfg, t) && t.haveSequence && samples != [] && (t.history.epoch, sequence) !in t.history.accepted
    requires Assembled(cfg, t, dropped) && t.history.start <= sequence <= t.expected + RESTART_PACKET_GAP
    ensures var u := Push(cfg, t, sequence, samples);
      && Assembled(cfg, u, dropped) && u.haveSequence
      && u.history.start == t.history.start && u.history.epoch == t.history.epoch
      && u.history.accepted == t.history.accepted[(t.history.epoch, sequence) := samples]
      && u.stats.sequenceGaps == t.stats.sequenceGaps && u.stats.sequenceRestarts == t.stats.sequenceRestarts
      && u.stats.packetsPushed == t.stats.packetsPushed + 1
      && u.stats.lateOrDuplicatePackets == t.stats.lateOrDuplicatePackets
  {
    assert forall k :: t.history.start <= k < t.expected ==> (t.history.epoch, k) in t.history.accepted;
    hide Core, Balanced, Assembled, Push;
    UnknownIsNew(cfg, t, sequence, samples);
    var e := Enqueue(t, sequence, samples);
    EnqueueAssembles(cfg, t, sequence, samples, dropped);
    EnqueueKeeps(cfg, t, sequence, samples);
    PromoteAssembles(cfg, e, dropped);
    PromoteKeeps(cfg, e);
    AssembledStats(cfg, Promote(cfg, e), Push(cfg, t, sequence, samples), dropped);
  }

  lemma UnknownIsNew(cfg: Config, t: State, sequence: nat, samples: seq<Sample>)
    requires Inv(cfg, t) && t.haveSequence && samples != [] && (t.history.epoch, sequence) !in t.history.accepted
    requires t.history.start <= sequence <= t.expected + RESTART_PACKET_GAP
    requires forall k :: t.history.start <= k < t.expected ==> (t.history.epoch, k) in t.history.accepted
    ensures sequence >= t.expected && sequence !in t.pending
    ensures Push(cfg, t, sequence, samples) ==
      Refresh(Counted(Promote(cfg, Enqueue(t, sequence, samples)), |samples|))
  {
    hide InOrder, Authentic, Bounded, Balanced, Promote, Enqueue;
    assert sequence !in t.pending;
    assert Admit(t, sequence) == t;
  }

  lemma EnqueueAssembles(cfg: Config, t: State, sequence: nat, samples: seq<Sample>, dropped: int)
    requires Assembled(cfg, t, dropped) && sequence >= t.expected && (t.history.epoch, sequence) !in t.history.accepted
    ensures Assembled(cfg, Enqueue(t, sequence, samples), dropped)
  {
    hide Stream;
    StreamStable(t.history, Enqueue(t, sequence, samples).history, t.expected);
  }

  lemma FirstCollects(cfg: Config, s: State, first: Arrival)
    requires Inv(cfg, s) && !s.haveSequence && first.samples != []
    ensures Collected(cfg, s, [first], first.sequence, Push(cfg, s, first.sequence, first.samples))
  {
    var a := Admit(s, first.sequence);
    StartsEmpty(cfg, s, first.sequence);
    hide Core, Balanced, Assembled, Promote;
    PushKeeps(cfg, s, first.sequence, first.samples);
    UnknownIsAccepted(cfg, a, first.sequence, first.samples, s.stats.overflowDroppedFrames);
    assert Push(cfg, a, first.sequence, first.samples) == Push(cfg, s, first.sequence, first.samples);
    CollectExtends(cfg, s, [], first, first.sequence, a, Push(cfg, s, first.sequence, first.samples));
    assert [] + [first] == [first];
    NumbersExtends([], first);
  }

  lemma StartsEmpty(cfg: Config, s: State, sequence: nat)
    requires Inv(cfg, s) && !s.haveSequence
    ensures var a := Admit(s, sequence);
      && Inv(cfg, a) && Assembled(cfg, a, s.stats.overflowDroppedFrames)
      && forall k: nat :: (s.history.epoch, k) !in s.history.accepted
  {
    AdmitKeeps(cfg, s, sequence);
    hide InOrder, Authentic;
  }

  lemma {:induction false} AllCollected(cfg: Config, s: State, arrivals: seq<Arrival>, base: nat, n: nat)
    requires Inv(cfg, s) && !s.haveSequence && n <= RESTART_PACKET_GAP
    requires arrivals != [] && arrivals[0].sequence == base && InRange(arrivals, base, n)
    ensures Collected(cfg, s, arrivals, base, PushAll(cfg, s, arrivals))
    decreases |arrivals|
  {
    hide Inv, Collected, Push;
    var before, last := arrivals[..|arrivals| - 1], arrivals[|arrivals| - 1];
    if before == [] {
      assert arrivals == [last];
      assert PushAll(cfg, s, before) == s;
      FirstCollects(cfg, s, last);
    } else {
      AllCollected(cfg, s, before, base, n);
      assert before + [last] == arrivals;
      PushCollects(cfg, s, before, last, base, n, PushAll(cfg, s, before));
    }
  }

  lemma {:induction false} StreamIsInSequence(h: History, arrivals: seq<Arrival>, n: nat)
    requires forall k: nat :: (h.epoch, k) in h.accepted <==> Arrived(arrivals, k)
    requires forall k: nat :: Arrived(arrivals, k) ==> h.accepted[(h.epoch, k)] == FirstCopy(arrivals, k)
    requires forall k :: h.start <= k < h.start + n ==> Arrived(arrivals, k)
    ensures Stream(h, h.start + n) == InSequence(arrivals, h.start, n)
  {
    hide FirstCopy, Arrived;
    if n > 0 {
      StreamIsInSequence(h, arrivals, n - 1);
    }
  }

  /**
   Packets `base` up to `base + n`, at most 256 of them, arriving in any order after `base`
   and with any duplicates, before anything is popped: the ready queue holds the newest frames
   of the first copies in sequence order, every surplus arrival is counted as late or duplicate,
   every frame that did not fit as overflow, and nothing waits or counts as a gap.
   */
  lemma ArrivalOrderIrrelevant(cfg: Config, s: State, arrivals: seq<Arrival>, base: nat, n: nat)
    requires Inv(cfg, s) && !s.haveSequence && n <= RESTART_PACKET_GAP
    requires arrivals != [] && arrivals[0].sequence == base && InRange(arrivals, base, n)
    requires forall k :: base <= k < base + n ==> Arrived(arrivals, k)
    ensures var t := PushAll(cfg, s, arrivals); var stream := InSequence(arrivals, base, n);
      && Samples(t.ready) == LastN(stream, cfg.capacity) && t.pending == map[] && t.expected == base + n
      && t.stats.lateOrDuplicatePackets == s.stats.lateOrDuplicatePackets + |arrivals| - n
      && t.stats.overflowDroppedFrames == s.stats.overflowDroppedFrames + |stream| - |t.ready|
      && t.stats.sequenceGaps == s.stats.sequenceGaps && t.stats.sequenceRestarts == s.stats.sequenceRestarts
  {
    hide Push, Inv;
    AllCollected(cfg, s, arrivals, base, n);
    var t := PushAll(cfg, s, arrivals);
    NothingWaits(cfg, s, arrivals, base, n, t);
    StreamIsInSequence(t.history, arrivals, n);
    NumbersInRange(arrivals, base, n);
  }

  lemma NothingWaits(cfg: Config, s: State, arrivals: seq<Arrival>, base: nat, n: nat, t: State)
    requires arrivals != [] && InRange(arrivals, base, n) && Collected(cfg, s, arrivals, base, t)
    requires forall k :: base <= k < base + n ==> Arrived(arrivals, k)
    ensures t.expected == base + n && t.pending == map[]
  {
    ExpectedInRange(cfg, s, arrivals, base, n, t);
    hide Balanced, Assembled, InOrder, Authentic;
    assert t.expected < base + n ==> Arrived(arrivals, t.expected);
    assert forall k :: k in t.pending ==> Arrived(arrivals, k);
  }

  lemma NumbersInRange(arrivals: seq<Arrival>, base: nat, n: nat)
    requires InRange(arrivals, base, n) && forall k :: base <= k < base + n ==> Arrived(arrivals, k)
    ensures |Numbers(arrivals)| == n
  {
    WindowSize(Numbers(arrivals), base, n);
    forall k | base <= k < base + n ensures k in Numbers(arrivals) {
      assert Arrived(arrivals, k);
    }
    WindowFull(Numbers(arrivals), base, n);
  }

  lemma {:induction false} WindowFull(keys: set<nat>, low: nat, n: nat)
    requires forall k :: low <= k < low + n ==> k in keys
    ensures |keys| >= n
  {
    if n > 0 {
      WindowFull(keys - {low + n - 1}, low, n - 1);
    }
  }

  // ----- the render period -----

  /** The state without the counters that depend on how rendering is cut into events. */
  function Heard(s: State): State {
    s.(stats := s.stats.(renderEvents := 0, underrunEvents := 0, startupUnderrunEvents := 0,
                         afterStartUnderrunEvents := 0, renderedFrames := 0, currentFrames := 0))
  }

  lemma {:induction false} PromoteHeard(cfg: Config, s: State)
    ensures Promote(cfg, Heard(s)) == Heard(Promote(cfg, s))
    decreases |s.pending|
  {
    if s.haveSequence && s.expected in s.pending {
      PromoteHeard(cfg, TakeNext(cfg, s));
      assert TakeNext(cfg, Heard(s)) == Heard(TakeNext(cfg, s));
    }
  }

  lemma {:induction false} SkipGapsHeard(cfg: Config, s: State)
    ensures SkipGaps(cfg, Heard(s)) == Heard(SkipGaps(cfg, s))
    decreases |s.pending|
  {
    if s.ready == [] && s.haveSequence && s.pending != map[] {
      SkipShrinks(cfg, s);
      SkipStepHeard(cfg, s);
      hide SkipStep;
      SkipGapsHeard(cfg, SkipStep(cfg, s));
    }
  }

  lemma SkipStepHeard(cfg: Config, s: State)
    requires s.pending != map[]
    ensures SkipStep(cfg, Heard(s)) == Heard(SkipStep(cfg, s))
  {
    var first := FirstKey(s.pending);
    if first >= s.expected {
      PromoteHeard(cfg, SkipTo(s, first));
      hide Promote;
      assert SkipTo(Heard(s), first) == Heard(SkipTo(s, first));
    }
  }

  lemma RefillHeard(cfg: Config, s: State, t: State)
    requires Heard(s) == Heard(t)
    ensures Heard(Refill(cfg, s)) == Heard(Refill(cfg, t))
  {
    PromoteHeard(cfg, s);
    PromoteHeard(cfg, t);
    SkipGapsHeard(cfg, Promote(cfg, s));
    SkipGapsHeard(cfg, Promote(cfg, t));
    hide Promote, SkipGaps;
    assert s.ready == t.ready by {
      assert Heard(s).ready == Heard(t).ready;
    }
  }

  lemma StepHeard(s: State, t: State, n: nat)
    requires Heard(s) == Heard(t)
    ensures s.ready == t.ready && Heard(Underrun(s, n)) == Heard(Underrun(t, n))
    ensures n <= |s.ready| ==> Heard(Emit(s, n)) == Heard(Emit(t, n))
  {
    assert Heard(s).ready == Heard(t).ready && Heard(s).history == Heard(t).history;
    assert Heard(s).stats == Heard(t).stats;
  }

  lemma {:induction false} PlayHeard(cfg: Config, s: State, t: State, need: nat)
    requires Heard(s) == Heard(t)
    ensures Heard(Play(cfg, s, need)) == Heard(Play(cfg, t, need))
    decreases need
  {
    hide Heard, Refill, Emit, Underrun;
    if need > 0 {
      RefillHeard(cfg, s, t);
      var r, q := Refill(cfg, s), Refill(cfg, t);
      StepHeard(r, q, need);
      if r.ready != [] {
        var n := Min(need, |r.ready|);
        StepHeard(r, q, n);
        PlayHeard(cfg, Emit(r, n), Emit(q, n), need - n);
      }
    }
  }

  lemma {:induction false} PlaySplits(cfg: Config, s: State, a: nat, b: nat)
    requires Core(cfg, s) && cfg.capacity > 0 && Settled(s)
    ensures Heard(Play(cfg, s, a + b)) == Heard(Play(cfg, Play(cfg, s, a), b))
    decreases a
  {
    hide Core, Settled, Holdings, Refill, Heard, Underrun;
    if a > 0 {
      RefillKeeps(cfg, s);
      var r := Refill(cfg, s);
      if r.ready == [] {
        SilenceSplits(cfg, s, a, b);
      } else if a < |r.ready| {
        WithinReady(cfg, s, a, b);
      } else {
        var n := |r.ready|;
        EmitKeeps(cfg, r, n);
        PlaySplits(cfg, Emit(r, n), a - n, b);
      }
    }
  }

  lemma PlayOnce(cfg: Config, s: State, need: nat)
    requires need > 0 && Refill(cfg, s).ready != []
    ensures var r := Refill(cfg, s); var n := Min(need, |r.ready|);
      Play(cfg, s, need) == Play(cfg, Emit(r, n), need - n)
  {
    hide Refill, Emit;
  }

  lemma WithinReady(cfg: Config, s: State, a: nat, b: nat)
    requires 0 < a < |Refill(cfg, s).ready|
    ensures Play(cfg, s, a + b) == Play(cfg, Play(cfg, s, a), b)
  {
    hide Refill, Emit, Play;
    var r := Refill(cfg, s);
    var n := Min(a + b, |r.ready|);
    EmitSplits(r, a, n);
    PlayOnce(cfg, s, a);
    PlayOnce(cfg, s, a + b);
    PlayNothing(cfg, Emit(r, a));
    EmptyHanded(cfg, Emit(r, a), b);
  }

  lemma PlayNothing(cfg: Config, s: State)
    ensures Play(cfg, s, 0) == s
  {
  }

  lemma SilenceSplits(cfg: Config, s: State, a: nat, b: nat)
    requires s.ready == [] && s.pending == map[] && a > 0
    ensures Heard(Play(cfg, s, a + b)) == Heard(Play(cfg, Play(cfg, s, a), b))
  {
    assert Refill(cfg, s) == s && Play(cfg, s, a) == Underrun(s, a);
    var u := Underrun(s, a);
    assert Refill(cfg, u) == u;
  }

  /** Taking frames from a queue that is not dry does not look for more. */
  lemma EmptyHanded(cfg: Config, s: State, b: nat)
    requires s.ready != []
    ensures Play(cfg, s, b) == if b == 0 then s else Play(cfg, Emit(s, Min(b, |s.ready|)), b - Min(b, |s.ready|))
  {
  }

  lemma EmitSplits(s: State, a: nat, n: nat)
    requires a <= n <= |s.ready|
    ensures |Emit(s, a).ready| == |s.ready| - a && Emit(Emit(s, a), n - a) == Emit(s, n)
  {
    assert s.ready[..n] == s.ready[..a] + s.ready[a..][..n - a];
    assert s.ready[n..] == s.ready[a..][n - a..];
    assert s.history.played + s.ready[..a] + s.ready[a..][..n - a] == s.history.played + s.ready[..n];
  }

  /**
   The render period does not matter: asking for `a` frames and then for `b` plays the same
   frames, the same amount of silence and leaves the same buffer as asking for `a + b` at once.
   */
  lemma RenderPeriodIrrelevant(cfg: Config, s: State, a: nat, b: nat)
    requires Inv(cfg, s) && cfg.capacity > 0
    ensures Heard(Pop(cfg, Pop(cfg, s, a), b)) == Heard(Pop(cfg, s, a + b))
    ensures Pop(cfg, Pop(cfg, s, a), b).stats.renderedFrames == Pop(cfg, s, a + b).stats.renderedFrames
  {
    hide Core, Settled, Holdings, Play, Balanced;
    PopKeeps(cfg, s, a);
    StepCounts(cfg, s, PopOp(a));
    StepCounts(cfg, s, PopOp(a + b));
    StepCounts(cfg, Pop(cfg, s, a), PopOp(b));
    if a > 0 && b > 0 {
      PopSplits(cfg, s, a, b);
    } else if a == 0 {
      assert Pop(cfg, s, a) == s;
    }
  }

  lemma PopSplits(cfg: Config, s: State, a: nat, b: nat)
    requires Inv(cfg, s) && cfg.capacity > 0 && a > 0 && b > 0 && Inv(cfg, Pop(cfg, s, a))
    ensures Heard(Pop(cfg, Pop(cfg, s, a), b)) == Heard(Pop(cfg, s, a + b))
  {
    hide Core, Settled, Holdings, Play, Balanced, Begin;
    BeginKeeps(cfg, s);
    var p, t := Begin(cfg, s), Pop(cfg, s, a);
    BeginKeeps(cfg, t);
    BeginAgain(cfg, s, a);
    if p.stats.started {
      PlaySplits(cfg, p, a, b);
      PlayHeard(cfg, Begin(cfg, t), Play(cfg, p, a), b);
    }
  }

  /** Playback that started stays started; playback that could not start still cannot. */
  lemma BeginAgain(cfg: Config, s: State, a: nat)
    requires Inv(cfg, s) && cfg.capacity > 0 && a > 0 && Inv(cfg, Pop(cfg, s, a))
    ensures Begin(cfg, Pop(cfg, s, a)).stats.started == Begin(cfg, s).stats.started
    ensures Heard(Begin(cfg, Pop(cfg, s, a))) ==
      Heard(if Begin(cfg, s).stats.started then Play(cfg, Begin(cfg, s), a) else StartupUnderrun(Begin(cfg, s), a))
  {
    hide Core, Holdings, Play, Balanced;
    BeginKeeps(cfg, s);
    if Begin(cfg, s).stats.started {
      PlayKeeps(cfg, Begin(cfg, s), a);
    }
    BeginKeeps(cfg, Pop(cfg, s, a));
  }

  // ----- the start threshold -----

  lemma {:induction false} NeverStarts(cfg: Config, ops: seq<Op>)
    requires 0 < cfg.capacity < cfg.startThreshold
    ensures !Run(cfg, ops).stats.started && Run(cfg, ops).history.played == []
  {
    if ops != [] {
      var before := ops[..|ops| - 1];
      NeverStarts(cfg, before);
      RunKeeps(cfg, before);
      var s := Run(cfg, before);
      match ops[|ops| - 1]
      case PushOp(sequence, samples) =>
        PushPlaysNothing(cfg, s, sequence, samples);
        PushStays(cfg, s, sequence, samples);
      case PopOp(frames) => BeginKeeps(cfg, s);
      case ResetOp =>
    }
  }

  lemma PushStays(cfg: Config, s: State, sequence: nat, samples: seq<Sample>)
    requires Inv(cfg, s) && !s.stats.started
    ensures !Push(cfg, s, sequence, samples).stats.started
  {
    hide Core, Balanced;
    if samples != [] && !IsLate(s, sequence) {
      AdmitKeeps(cfg, s, sequence);
      var a := Admit(s, sequence);
      if sequence !in a.pending {
        EnqueueKeeps(cfg, a, sequence, samples);
        PromoteKeeps(cfg, Enqueue(a, sequence, samples));
      }
    }
  }

  /** A buffer can ever play anything exactly when its start threshold fits its capacity. */
  lemma PlaysIffThresholdFits(cfg: Config)
    requires cfg.capacity > 0
    ensures (exists ops :: Run(cfg, ops).history.played != []) <==> cfg.startThreshold <= cfg.capacity
  {
    if cfg.startThreshold > cfg.capacity {
      forall ops ensures Run(cfg, ops).history.played == [] {
        NeverStarts(cfg, ops);
      }
    } else {
      hide Push, Pop;
      var push := [PushOp(0, seq(cfg.capacity, _ => 0))];
      var ops := push + [PopOp(1)];
      assert ops[..1] == push && push[..0] == [];
      assert Run(cfg, push) == Push(cfg, INITIAL, 0, push[0].samples);
      FillPlays(cfg, push[0].samples);
      assert ops[..|ops| - 1] == push && ops[|ops| - 1] == PopOp(1);
      assert Run(cfg, ops) == Step(cfg, Run(cfg, push), PopOp(1));
      assert Run(cfg, ops).history.played != [];
    }
  }

  lemma FillPlays(cfg: Config, samples: seq<Sample>)
    requires cfg.startThreshold <= cfg.capacity == |samples| && cfg.capacity > 0
    ensures Pop(cfg, Push(cfg, INITIAL, 0, samples), 1).history.played != []
  {
    hide Inv, Push;
    InitialKeeps(cfg);
    PushKeeps(cfg, INITIAL, 0, samples);
    var s := Push(cfg, INITIAL, 0, samples);
    var arrivals := [Arrival(0, samples)];
    assert arrivals[..0] == [] && PushAll(cfg, INITIAL, []) == INITIAL;
    assert PushAll(cfg, INITIAL, arrivals) == s;
    assert Arrived(arrivals, 0) && InSequence(arrivals, 0, 1) == [] + samples;
    ArrivalOrderIrrelevant(cfg, INITIAL, arrivals, 0, 1);
    assert |Samples(s.ready)| == cfg.capacity;
    FullPlays(cfg, s);
  }

  lemma FullPlays(cfg: Config, s: State)
    requires Inv(cfg, s) && cfg.startThreshold <= |s.ready| && s.ready != []
    ensures Pop(cfg, s, 1).history.played != []
  {
    BeginKeeps(cfg, s);
    hide Core, Balanced;
    var b := Begin(cfg, s);
    assert b.stats.started && b.ready == s.ready;
    EmptyHanded(cfg, b, 1);
    assert Play(cfg, Emit(b, 1), 0) == Emit(b, 1);
  }
}
