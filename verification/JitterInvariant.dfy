/** What every run of the jitter buffer keeps. */
module JitterInvariant {
  import opened Basics
  import opened Pcm
  import opened JitterSpec

  /** Frames are ordered by epoch, then sequence number, then offset. */
  predicate Before(a: Frame, b: Frame) {
    || a.epoch < b.epoch
    || (a.epoch == b.epoch && a.sequence < b.sequence)
    || (a.epoch == b.epoch && a.sequence == b.sequence && a.offset < b.offset)
  }

  predicate Ordered(frames: seq<Frame>) {
    forall i, j :: 0 <= i < j < |frames| ==> Before(frames[i], frames[j])
  }

  predicate AllBefore(a: seq<Frame>, b: seq<Frame>) {
    forall i, j :: 0 <= i < |a| && 0 <= j < |b| ==> Before(a[i], b[j])
  }

  /** The frame lies before the stream position. */
  predicate Behind(f: Frame, s: State) {
    f.epoch < s.history.epoch || (f.epoch == s.history.epoch && f.sequence < s.expected)
  }

  /** The frame is a sample of the accepted copy of its packet. */
  predicate Genuine(f: Frame, accepted: map<(nat, nat), seq<Sample>>) {
    && (f.epoch, f.sequence) in accepted
    && f.offset < |accepted[(f.epoch, f.sequence)]|
    && accepted[(f.epoch, f.sequence)][f.offset] == f.sample
  }

  /** Waiting packets are at most 256 numbers ahead of the stream, never behind it and never empty. */
  ghost predicate Windowed(s: State) {
    && (forall k :: k in s.pending ==> s.expected <= k <= s.expected + RESTART_PACKET_GAP && s.pending[k] != [])
    && (!s.haveSequence ==> s.pending == map[] && s.ready == [] && s.expected == 0 && s.history.appended == [])
  }

  ghost predicate InOrder(s: State) {
    && Ordered(s.history.played) && Ordered(s.ready) && AllBefore(s.history.played, s.ready)
    && (forall i :: 0 <= i < |s.history.played| ==> Behind(s.history.played[i], s))
    && (forall i :: 0 <= i < |s.ready| ==> Behind(s.ready[i], s) && s.ready[i].epoch == s.history.epoch)
  }

  ghost predicate Authentic(s: State) {
    && (forall i :: 0 <= i < |s.history.played| ==> Genuine(s.history.played[i], s.history.accepted))
    && (forall i :: 0 <= i < |s.ready| ==> Genuine(s.ready[i], s.history.accepted))
  }

  predicate Ascending(numbers: seq<nat>) {
    forall i, j :: 0 <= i < j < |numbers| ==> numbers[i] < numbers[j]
  }

  /**
   Every number from the start of the epoch up to the stream position was appended to the
   ready queue exactly once, if a copy was accepted, and otherwise counted once as a gap.
   */
  ghost predicate Accounted(s: State) {
    var h := s.history;
    && h.start <= s.expected
    && Ascending(h.appended)
    && (forall k :: k in h.appended ==> h.start <= k < s.expected)
    && s.expected - h.start == |h.appended| + s.stats.sequenceGaps - h.gapsBefore
    && (forall k: nat :: k < s.expected ==> ((h.epoch, k) in h.accepted <==> k in h.appended))
    && (forall k: nat :: k >= s.expected ==> ((h.epoch, k) in h.accepted <==> k in s.pending))
    && (forall k :: k in s.pending ==> (h.epoch, k) in h.accepted && h.accepted[(h.epoch, k)] == s.pending[k])
    && (forall e: nat, k: nat :: (e, k) in h.accepted ==> e <= h.epoch)
    && (forall e: nat, k: nat :: (e, k) in h.accepted ==> h.accepted[(e, k)] != [])
  }

  ghost predicate Bounded(cfg: Config, s: State) {
    && |s.ready| <= cfg.capacity
    && |s.ready| <= s.stats.maxFramesSeen <= cfg.capacity
  }

  ghost predicate Core(cfg: Config, s: State) {
    && Windowed(s) && InOrder(s) && Authentic(s) && Accounted(s) && Bounded(cfg, s)
  }

  /** Where the frames that ever entered the buffer are now. */
  ghost function Holdings(s: State): nat {
    |s.history.played| + s.stats.overflowDroppedFrames + |s.ready| + TotalFrames(s.pending) + s.history.discarded
  }

  ghost predicate Balanced(s: State) {
    && s.stats.framesPushed == Holdings(s)
    && s.stats.renderedFrames == |s.history.played| + s.stats.underrunFrames
    && s.stats.underrunFrames == s.stats.startupUnderrunFrames + s.stats.afterStartUnderrunFrames
    && s.stats.underrunEvents == s.stats.startupUnderrunEvents + s.stats.afterStartUnderrunEvents
    && s.stats.packetsPushed == |s.history.accepted|
    && s.stats.currentFrames == |s.ready|
  }

  /** The stream never waits for a packet that is already there. */
  ghost predicate Settled(s: State) {
    s.expected !in s.pending
  }

  ghost predicate Inv(cfg: Config, s: State) {
    Core(cfg, s) && Balanced(s) && Settled(s)
  }

  // ----- the steps that move packets and frames keep Core -----

  lemma EnqueueAccounts(s: State, sequence: nat, samples: seq<Sample>)
    requires Accounted(s) && Authentic(s) && sequence !in s.pending && samples != [] && s.expected <= sequence
    ensures Accounted(Enqueue(s, sequence, samples)) && Authentic(Enqueue(s, sequence, samples))
    ensures (s.history.epoch, sequence) !in s.history.accepted
  {
    assert (s.history.epoch, sequence) !in s.history.accepted;
  }

  lemma EnqueueWaits(s: State, sequence: nat, samples: seq<Sample>)
    requires Windowed(s) && InOrder(s) && s.haveSequence && sequence !in s.pending && samples != []
    requires s.expected <= sequence <= s.expected + RESTART_PACKET_GAP
    ensures var t := Enqueue(s, sequence, samples);
      Windowed(t) && InOrder(t) && TotalFrames(t.pending) == TotalFrames(s.pending) + |samples|
  {
    hide Ordered, AllBefore;
    var t := Enqueue(s, sequence, samples);
    TotalFramesRemove(t.pending, sequence);
    assert t.pending - {sequence} == s.pending;
  }

  lemma EnqueueKeeps(cfg: Config, s: State, sequence: nat, samples: seq<Sample>)
    requires Core(cfg, s) && s.haveSequence && sequence !in s.pending && samples != []
    requires s.expected <= sequence <= s.expected + RESTART_PACKET_GAP
    ensures var t := Enqueue(s, sequence, samples);
      && Core(cfg, t) && Holdings(t) == Holdings(s) + |samples|
      && |t.history.accepted| == |s.history.accepted| + 1
  {
    hide Windowed, InOrder, Accounted, Authentic;
    EnqueueAccounts(s, sequence, samples);
    EnqueueWaits(s, sequence, samples);
  }

  /** Appending later frames and dropping some of the oldest keeps a queue in order. */
  lemma OrderedWindow(first: seq<Frame>, a: seq<Frame>, b: seq<Frame>, n: nat)
    requires Ordered(a) && Ordered(b) && AllBefore(a, b) && AllBefore(first, a) && AllBefore(first, b)
    ensures Ordered(LastN(a + b, n)) && AllBefore(first, LastN(a + b, n))
  {
    var all := a + b;
    forall i, j | 0 <= i < j < |all| ensures Before(all[i], all[j]) {
      if i >= |a| {
        assert Before(b[i - |a|], b[j - |a|]);
      }
    }
  }

  lemma NewFrames(s: State)
    requires InOrder(s) && Accounted(s) && s.expected in s.pending
    ensures var tags := Tagged(s.history.epoch, s.expected, s.pending[s.expected]);
      && Ordered(tags) && AllBefore(s.ready, tags) && AllBefore(s.history.played, tags)
      && forall i :: 0 <= i < |tags| ==> Genuine(tags[i], s.history.accepted)
  {
  }

  lemma TakeNextOrder(cfg: Config, s: State)
    requires InOrder(s) && Accounted(s) && s.expected in s.pending
    ensures InOrder(TakeNext(cfg, s))
  {
    var t := TakeNext(cfg, s);
    var tags := Tagged(s.history.epoch, s.expected, s.pending[s.expected]);
    NewFrames(s);
    OrderedWindow(s.history.played, s.ready, tags, cfg.capacity);
    hide Accounted, Ordered, AllBefore, Genuine;
    var all := s.ready + tags;
    var dropped := |all| - |t.ready|;
    forall i | 0 <= i < |t.ready|
      ensures Behind(t.ready[i], t) && t.ready[i].epoch == s.history.epoch
    {
      assert t.ready[i] == all[i + dropped];
    }
  }

  lemma TakeNextAuthentic(cfg: Config, s: State)
    requires InOrder(s) && Authentic(s) && Accounted(s) && s.expected in s.pending
    ensures Authentic(TakeNext(cfg, s))
  {
    var t := TakeNext(cfg, s);
    var tags := Tagged(s.history.epoch, s.expected, s.pending[s.expected]);
    NewFrames(s);
    hide Accounted, InOrder, Ordered, AllBefore, Genuine;
    var all := s.ready + tags;
    var dropped := |all| - |t.ready|;
    forall i | 0 <= i < |t.ready| ensures Genuine(t.ready[i], t.history.accepted) {
      assert t.ready[i] == all[i + dropped];
    }
  }

  lemma TakeNextAccounts(cfg: Config, s: State)
    requires Accounted(s) && s.haveSequence && s.expected in s.pending
    ensures Accounted(TakeNext(cfg, s))
  {
    var t := TakeNext(cfg, s);
    var n := |s.history.appended|;
    assert forall i :: 0 <= i < n ==> s.history.appended[i] in s.history.appended;
    assert t.history.appended[n] == s.expected;
    assert forall k :: k in t.history.appended <==> k in s.history.appended || k == s.expected;
  }

  lemma TakeNextKeeps(cfg: Config, s: State)
    requires Core(cfg, s) && s.haveSequence && s.expected in s.pending
    ensures var t := TakeNext(cfg, s);
      Core(cfg, t) && Holdings(t) == Holdings(s) && (cfg.capacity > 0 ==> t.ready != [])
  {
    TakeNextOrder(cfg, s);
    TakeNextAuthentic(cfg, s);
    TakeNextAccounts(cfg, s);
    TotalFramesRemove(s.pending, s.expected);
    hide InOrder, Authentic, Accounted;
  }

  /** The parts of the state that promotion leaves alone. */
  ghost predicate SameButMoved(s: State, t: State) {
    && t.haveSequence == s.haveSequence && t.expected >= s.expected
    && t.history.played == s.history.played && t.history.accepted == s.history.accepted
    && t.history.epoch == s.history.epoch && t.history.discarded == s.history.discarded
    && t.stats == s.stats.(sequenceGaps := t.stats.sequenceGaps,
                           overflowDroppedFrames := t.stats.overflowDroppedFrames,
                           maxFramesSeen := t.stats.maxFramesSeen)
  }

  lemma {:induction false} PromoteKeeps(cfg: Config, s: State)
    requires Core(cfg, s)
    ensures var t := Promote(cfg, s);
      && Core(cfg, t) && Settled(t) && Holdings(t) == Holdings(s) && SameButMoved(s, t)
      && (s.expected !in s.pending ==> t == s)
      && (cfg.capacity > 0 && (s.ready != [] || s.expected in s.pending) ==> t.ready != [])
    decreases |s.pending|
  {
    if s.haveSequence && s.expected in s.pending {
      TakeNextKeeps(cfg, s);
      PromoteKeeps(cfg, TakeNext(cfg, s));
    }
  }

  lemma SkipToKeeps(cfg: Config, s: State)
    requires Core(cfg, s) && s.haveSequence && s.pending != map[]
    ensures var k := FirstKey(s.pending);
      s.expected <= k && Core(cfg, SkipTo(s, k)) && Holdings(SkipTo(s, k)) == Holdings(s)
  {
    var t := SkipTo(s, FirstKey(s.pending));
    assert FirstKey(s.pending) in s.pending;
    assert Accounted(t) by {
      forall k: nat | s.expected <= k < t.expected
        ensures (t.history.epoch, k) !in t.history.accepted && k !in t.history.appended
      {
        assert k !in s.pending;
      }
    }
  }

  /**
   A dry ready queue is refilled by one skip at most: the stale branch is never taken and
   the first skip already yields frames.
   */
  lemma SkipGapsOnce(cfg: Config, s: State)
    requires Core(cfg, s) && cfg.capacity > 0
    ensures SkipGaps(cfg, s) ==
      if s.ready == [] && s.pending != map[] then Promote(cfg, SkipTo(s, FirstKey(s.pending))) else s
    ensures s.pending != map[] ==> SkipGaps(cfg, s).ready != []
  {
    if s.ready == [] && s.haveSequence && s.pending != map[] {
      SkipToKeeps(cfg, s);
      PromoteKeeps(cfg, SkipTo(s, FirstKey(s.pending)));
    }
  }

  lemma RefillKeeps(cfg: Config, s: State)
    requires Core(cfg, s) && cfg.capacity > 0 && Settled(s)
    ensures var r := Refill(cfg, s);
      && Core(cfg, r) && Settled(r) && Holdings(r) == Holdings(s) && SameButMoved(s, r)
      && (r.ready == [] <==> s.ready == [] && s.pending == map[])
      && (r.ready == [] ==> r == s)
  {
    PromoteKeeps(cfg, s);
    SkipGapsOnce(cfg, s);
    if s.ready == [] && s.pending != map[] {
      SkipToKeeps(cfg, s);
      PromoteKeeps(cfg, SkipTo(s, FirstKey(s.pending)));
    }
  }

  lemma EmitOrder(s: State, n: nat)
    requires InOrder(s) && Authentic(s) && n <= |s.ready|
    ensures InOrder(Emit(s, n)) && Authentic(Emit(s, n))
  {
    var t := Emit(s, n);
    var k := |s.history.played|;
    assert forall i :: 0 <= i < |t.history.played| ==>
      t.history.played[i] == if i < k then s.history.played[i] else s.ready[i - k];
    assert forall i :: 0 <= i < |t.ready| ==> t.ready[i] == s.ready[i + n];
  }

  lemma EmitKeeps(cfg: Config, s: State, n: nat)
    requires Core(cfg, s) && n <= |s.ready|
    ensures Core(cfg, Emit(s, n)) && Holdings(Emit(s, n)) == Holdings(s) && (Settled(s) ==> Settled(Emit(s, n)))
  {
    EmitOrder(s, n);
  }

  /** Playing counts underruns after the start, gaps, overflow and the maximum, and nothing else. */
  predicate OnlyPlayed(s: Stats, t: Stats) {
    && t == s.(sequenceGaps := t.sequenceGaps, overflowDroppedFrames := t.overflowDroppedFrames,
               maxFramesSeen := t.maxFramesSeen,
               underrunEvents := t.underrunEvents, underrunFrames := t.underrunFrames,
               afterStartUnderrunEvents := t.afterStartUnderrunEvents,
               afterStartUnderrunFrames := t.afterStartUnderrunFrames)
    && t.underrunFrames - s.underrunFrames == t.afterStartUnderrunFrames - s.afterStartUnderrunFrames
    && t.underrunEvents - s.underrunEvents == t.afterStartUnderrunEvents - s.afterStartUnderrunEvents <= 1
  }

  lemma {:induction false} PlayKeeps(cfg: Config, s: State, need: nat)
    requires Core(cfg, s) && cfg.capacity > 0 && Settled(s)
    ensures var t := Play(cfg, s, need);
      && Core(cfg, t) && Settled(t) && Holdings(t) == Holdings(s)
      && s.history.played <= t.history.played
      && |t.history.played| + t.stats.underrunFrames == |s.history.played| + s.stats.underrunFrames + need
      && t.history.accepted == s.history.accepted && OnlyPlayed(s.stats, t.stats)
    decreases need
  {
    hide Core, Settled, Holdings, Refill;
    if need > 0 {
      RefillKeeps(cfg, s);
      var r := Refill(cfg, s);
      if r.ready == [] {
        StatsIrrelevant(cfg, r, Underrun(r, need));
      } else {
        var n := Min(need, |r.ready|);
        EmitKeeps(cfg, r, n);
        PlayKeeps(cfg, Emit(r, n), need - n);
      }
    }
  }

  // ----- the public operations keep the invariant -----

  lemma ClearedKeeps(cfg: Config, s: State, expected: nat, have: bool)
    requires Core(cfg, s) && (!have ==> expected == 0)
    ensures var t := Cleared(s, expected, have);
      Core(cfg, t) && Settled(t) && Holdings(t) == Holdings(s)
  {
    var t := Cleared(s, expected, have);
    assert Accounted(t);
  }

  lemma StatsIrrelevant(cfg: Config, s: State, t: State)
    requires Core(cfg, s) && t == s.(stats := t.stats)
    requires t.stats.sequenceGaps == s.stats.sequenceGaps && t.stats.maxFramesSeen == s.stats.maxFramesSeen
    requires t.stats.overflowDroppedFrames == s.stats.overflowDroppedFrames
    ensures Core(cfg, t) && (Settled(s) ==> Settled(t)) && Holdings(t) == Holdings(s)
  {
  }

  lemma AdmitKeeps(cfg: Config, s: State, sequence: nat)
    requires Inv(cfg, s) && !IsLate(s, sequence)
    ensures var a := Admit(s, sequence);
      && Inv(cfg, a) && a.haveSequence && a.expected <= sequence <= a.expected + RESTART_PACKET_GAP
      && a.history.played == s.history.played && a.history.accepted == s.history.accepted
      && a.stats == s.stats.(started := a.stats.started, currentFrames := a.stats.currentFrames,
                             sequenceRestarts := a.stats.sequenceRestarts)
  {
    if s.haveSequence {
      ClearedKeeps(cfg, s, sequence, true);
      StatsIrrelevant(cfg, Cleared(s, sequence, true), Restart(s, sequence));
    }
  }

  lemma PushKeeps(cfg: Config, s: State, sequence: nat, samples: seq<Sample>)
    requires Inv(cfg, s)
    ensures Inv(cfg, Push(cfg, s, sequence, samples))
    ensures samples != [] && !IsLate(s, sequence) ==> Settled(Admit(s, sequence))
  {
    hide Core, Admit;
    if samples != [] {
      if IsLate(s, sequence) {
        StatsIrrelevant(cfg, s, Late(s));
      } else {
        AdmitKeeps(cfg, s, sequence);
        var a := Admit(s, sequence);
        StatsIrrelevant(cfg, a, Late(a));
        if sequence !in a.pending {
          var e := Enqueue(a, sequence, samples);
          EnqueueKeeps(cfg, a, sequence, samples);
          PromoteKeeps(cfg, e);
          StatsIrrelevant(cfg, Promote(cfg, e), Refresh(Counted(Promote(cfg, e), |samples|)));
        }
      }
    }
  }

  /** With nothing due, starting to render only touches the render counter and the start flag. */
  lemma BeginKeeps(cfg: Config, s: State)
    requires Inv(cfg, s)
    ensures var b := Begin(cfg, s);
      && b == s.(stats := s.stats.(renderEvents := s.stats.renderEvents + 1, started := b.stats.started))
      && Core(cfg, b) && Settled(b) && Holdings(b) == Holdings(s)
  {
    hide Core, Holdings;
    var c := s.(stats := s.stats.(renderEvents := s.stats.renderEvents + 1));
    assert Promote(cfg, c) == c;
    StatsIrrelevant(cfg, s, Begin(cfg, s));
  }

  lemma PopKeeps(cfg: Config, s: State, frames: nat)
    requires Inv(cfg, s) && cfg.capacity > 0
    ensures Inv(cfg, Pop(cfg, s, frames))
    ensures s.history.played <= Pop(cfg, s, frames).history.played
  {
    hide Core, Settled, Holdings, Play, Begin;
    BeginKeeps(cfg, s);
    if frames > 0 {
      var b := Begin(cfg, s);
      if b.stats.started {
        PlayKeeps(cfg, b, frames);
        StatsIrrelevant(cfg, Play(cfg, b, frames), Rendered(Play(cfg, b, frames), frames));
      } else {
        StatsIrrelevant(cfg, b, Rendered(StartupUnderrun(b, frames), frames));
      }
    }
  }

  lemma StepKeeps(cfg: Config, s: State, op: Op)
    requires Inv(cfg, s) && cfg.capacity > 0
    ensures Inv(cfg, Step(cfg, s, op))
    ensures s.history.played <= Step(cfg, s, op).history.played
  {
    hide Core;
    match op
    case PushOp(sequence, samples) =>
      PushKeeps(cfg, s, sequence, samples);
      PushPlaysNothing(cfg, s, sequence, samples);
    case PopOp(frames) => PopKeeps(cfg, s, frames);
    case ResetOp => ClearedKeeps(cfg, s, 0, false);
  }

  /** The copy of a packet that was accepted first stays the accepted one, whatever arrives later. */
  lemma CopiesKept(cfg: Config, s: State, op: Op, key: (nat, nat))
    requires Inv(cfg, s) && cfg.capacity > 0 && key in s.history.accepted
    ensures var t := Step(cfg, s, op); key in t.history.accepted && t.history.accepted[key] == s.history.accepted[key]
  {
    hide Windowed, InOrder, Bounded, Balanced, Admit, Promote, Play, Begin, Accounted, Authentic;
    match op
    case PushOp(sequence, samples) =>
      if samples != [] && !IsLate(s, sequence) {
        AdmitKeeps(cfg, s, sequence);
        var a := Admit(s, sequence);
        if sequence !in a.pending {
          EnqueueAccounts(a, sequence, samples);
          EnqueueKeeps(cfg, a, sequence, samples);
          PromoteKeeps(cfg, Enqueue(a, sequence, samples));
        }
      }
    case PopOp(frames) =>
      if frames > 0 {
        BeginKeeps(cfg, s);
        PlayKeeps(cfg, Begin(cfg, s), frames);
      }
    case ResetOp =>
  }

  lemma PushPlaysNothing(cfg: Config, s: State, sequence: nat, samples: seq<Sample>)
    requires Inv(cfg, s)
    ensures Push(cfg, s, sequence, samples).history.played == s.history.played
  {
    hide Core, Balanced;
    if samples != [] && !IsLate(s, sequence) {
      AdmitKeeps(cfg, s, sequence);
      var a := Admit(s, sequence);
      if sequence !in a.pending {
        EnqueueKeeps(cfg, a, sequence, samples);
        PromoteKeeps(cfg, Enqueue(a, sequence, samples));
      }
    }
  }

  lemma InitialKeeps(cfg: Config)
    ensures Inv(cfg, INITIAL)
  {
  }

  lemma {:induction false} RunKeeps(cfg: Config, ops: seq<Op>)
    requires cfg.capacity > 0
    ensures Inv(cfg, Run(cfg, ops))
  {
    if ops != [] {
      RunKeeps(cfg, ops[..|ops| - 1]);
      StepKeeps(cfg, Run(cfg, ops[..|ops| - 1]), ops[|ops| - 1]);
    }
  }

  // ----- what a run promises -----

  /** Every accepted copy is the payload of a push of the run. */
  lemma {:induction false} AcceptedWerePushed(cfg: Config, ops: seq<Op>, key: (nat, nat))
    requires cfg.capacity > 0 && key in Run(cfg, ops).history.accepted
    ensures PushOp(key.1, Run(cfg, ops).history.accepted[key]) in ops
  {
    hide Inv, Step;
    var before, last := ops[..|ops| - 1], ops[|ops| - 1];
    assert ops == before + [last];
    RunKeeps(cfg, before);
    StepAccepts(cfg, Run(cfg, before), last, key);
    if key in Run(cfg, before).history.accepted {
      AcceptedWerePushed(cfg, before, key);
    }
  }

  /** A step accepts at most the packet it pushes. */
  lemma StepAccepts(cfg: Config, s: State, op: Op, key: (nat, nat))
    requires Inv(cfg, s) && cfg.capacity > 0 && key in Step(cfg, s, op).history.accepted
    ensures var t := Step(cfg, s, op);
      if key in s.history.accepted then t.history.accepted[key] == s.history.accepted[key]
      else op == PushOp(key.1, t.history.accepted[key])
  {
    if key in s.history.accepted {
      CopiesKept(cfg, s, op, key);
    }
    hide Windowed, InOrder, Bounded, Balanced, Admit, Promote, Play, Begin, Accounted, Authentic;
    match op
    case PushOp(sequence, samples) =>
      if samples != [] && !IsLate(s, sequence) {
        AdmitKeeps(cfg, s, sequence);
        var a := Admit(s, sequence);
        if sequence !in a.pending {
          EnqueueKeeps(cfg, a, sequence, samples);
          PromoteKeeps(cfg, Enqueue(a, sequence, samples));
        }
      }
    case PopOp(frames) =>
      if frames > 0 {
        BeginKeeps(cfg, s);
        PlayKeeps(cfg, Begin(cfg, s), frames);
      }
    case ResetOp =>
  }

  /** The frame is a sample of a packet that the run pushed, of the one accepted copy of it. */
  ghost predicate WasPushed(f: Frame, s: State, ops: seq<Op>) {
    Genuine(f, s.history.accepted) && PushOp(f.sequence, s.history.accepted[(f.epoch, f.sequence)]) in ops
  }

  /**
   Playback over any run: frames come out in strictly increasing (epoch, sequence, offset)
   order, so none twice and none out of order; each is a sample of a pushed packet, from the
   one accepted copy of it; everything played precedes everything ready, which precedes everything waiting.
   */
  lemma PlaybackInOrder(cfg: Config, ops: seq<Op>)
    requires cfg.capacity > 0
    ensures var s := Run(cfg, ops);
      && Ordered(s.history.played + s.ready)
      && (forall i :: 0 <= i < |s.history.played + s.ready| ==> WasPushed((s.history.played + s.ready)[i], s, ops))
      && (forall k, offset: nat, i ::
            k in s.pending && 0 <= i < |s.history.played + s.ready| && offset < |s.pending[k]| ==>
            Before((s.history.played + s.ready)[i], Frame(s.history.epoch, k, offset, s.pending[k][offset])))
  {
    RunKeeps(cfg, ops);
    var s := Run(cfg, ops);
    var p, r := s.history.played, s.ready;
    forall i | 0 <= i < |p + r| ensures WasPushed((p + r)[i], s, ops) {
      AcceptedWerePushed(cfg, ops, ((p + r)[i].epoch, (p + r)[i].sequence));
    }
    forall i, j | 0 <= i < j < |p + r| ensures Before((p + r)[i], (p + r)[j]) {
      if i >= |p| {
        assert Before(r[i - |p|], r[j - |p|]);
      }
    }
  }

  /** Conservation over any run: every pushed frame is in exactly one place, and silence is accounted for. */
  lemma FramesConserved(cfg: Config, ops: seq<Op>)
    requires cfg.capacity > 0
    ensures var s := Run(cfg, ops);
      && s.stats.framesPushed == s.stats.renderedFrames - s.stats.underrunFrames + s.stats.overflowDroppedFrames
                                 + |s.ready| + TotalFrames(s.pending) + s.history.discarded
      && s.stats.underrunFrames == s.stats.startupUnderrunFrames + s.stats.afterStartUnderrunFrames
      && s.stats.underrunEvents == s.stats.startupUnderrunEvents + s.stats.afterStartUnderrunEvents
      && s.stats.renderedFrames == Requested(ops)
      && s.stats.packetsPushed + s.stats.lateOrDuplicatePackets == Arrivals(ops)
  {
    RunKeeps(cfg, ops);
    RunCounts(cfg, ops);
  }

  /** Frames asked for by the pops of a run. */
  function Requested(ops: seq<Op>): nat {
    if ops == [] then 0
    else Requested(ops[..|ops| - 1]) + if ops[|ops| - 1].PopOp? then ops[|ops| - 1].frames else 0
  }

  /** Non-empty packets offered by a run. */
  function Arrivals(ops: seq<Op>): nat {
    if ops == [] then 0
    else Arrivals(ops[..|ops| - 1]) + if ops[|ops| - 1].PushOp? && ops[|ops| - 1].samples != [] then 1 else 0
  }

  lemma StepCounts(cfg: Config, s: State, op: Op)
    requires Inv(cfg, s) && cfg.capacity > 0
    ensures var t := Step(cfg, s, op);
      && t.stats.renderedFrames == s.stats.renderedFrames + (if op.PopOp? then op.frames else 0)
      && t.stats.packetsPushed + t.stats.lateOrDuplicatePackets ==
         s.stats.packetsPushed + s.stats.lateOrDuplicatePackets + (if op.PushOp? && op.samples != [] then 1 else 0)
  {
    hide Core, Holdings, Admit, Promote;
    match op
    case PushOp(sequence, samples) =>
      if samples != [] && !IsLate(s, sequence) {
        AdmitKeeps(cfg, s, sequence);
        var a := Admit(s, sequence);
        if sequence !in a.pending {
          EnqueueKeeps(cfg, a, sequence, samples);
          PromoteKeeps(cfg, Enqueue(a, sequence, samples));
        }
      }
    case PopOp(frames) =>
      if frames > 0 {
        BeginKeeps(cfg, s);
        PlayKeeps(cfg, Begin(cfg, s), frames);
      }
    case ResetOp =>
  }

  lemma {:induction false} RunCounts(cfg: Config, ops: seq<Op>)
    requires cfg.capacity > 0
    ensures var s := Run(cfg, ops);
      && s.stats.renderedFrames == Requested(ops)
      && s.stats.packetsPushed + s.stats.lateOrDuplicatePackets == Arrivals(ops)
  {
    if ops != [] {
      RunCounts(cfg, ops[..|ops| - 1]);
      RunKeeps(cfg, ops[..|ops| - 1]);
      StepCounts(cfg, Run(cfg, ops[..|ops| - 1]), ops[|ops| - 1]);
    }
  }

  /**
   Sequence accounting over any run: of the numbers the current epoch has moved past, exactly
   the accepted ones were appended, each once and in order, and the others are the gaps.
   */
  lemma SequencesAccounted(cfg: Config, ops: seq<Op>)
    requires cfg.capacity > 0
    ensures var s := Run(cfg, ops); var h := s.history;
      && Ascending(h.appended)
      && (forall k: nat :: k in h.appended <==> h.start <= k < s.expected && (h.epoch, k) in h.accepted)
      && s.expected - h.start == |h.appended| + (s.stats.sequenceGaps - h.gapsBefore)
  {
    RunKeeps(cfg, ops);
  }

  /** Waiting packets: at most 256, all in the window just ahead of the stream, none empty. */
  lemma PendingWindow(cfg: Config, ops: seq<Op>)
    requires cfg.capacity > 0
    ensures var s := Run(cfg, ops);
      && (forall k :: k in s.pending ==> s.expected < k <= s.expected + RESTART_PACKET_GAP && s.pending[k] != [])
      && |s.pending| <= RESTART_PACKET_GAP
  {
    RunKeeps(cfg, ops);
    hide Run, InOrder, Authentic, Accounted, Balanced;
    var s := Run(cfg, ops);
    WindowSize(s.pending.Keys, s.expected + 1, RESTART_PACKET_GAP);
    assert |s.pending| == |s.pending.Keys|;
  }

  lemma {:induction false} WindowSize(keys: set<nat>, low: nat, n: nat)
    requires forall k :: k in keys ==> low <= k < low + n
    ensures |keys| <= n
  {
    if n > 0 {
      WindowSize(keys - {low + n - 1}, low, n - 1);
    } else {
      assert keys == {};
    }
  }

  /** Sixty-four bit sequence arithmetic never wraps while pushed numbers stay below 2^64 - 1. */
  lemma {:induction false} ExpectedBounded(cfg: Config, ops: seq<Op>, limit: nat)
    requires cfg.capacity > 0
    requires forall i :: 0 <= i < |ops| && ops[i].PushOp? ==> ops[i].sequence < limit
    ensures var s := Run(cfg, ops); s.expected <= limit && forall k :: k in s.pending ==> k < limit
  {
    if ops != [] {
      var before := ops[..|ops| - 1];
      var s := Run(cfg, before);
      ExpectedBounded(cfg, before, limit);
      RunKeeps(cfg, before);
      match ops[|ops| - 1]
      case PushOp(sequence, samples) => PushBounded(cfg, s, sequence, samples, limit);
      case PopOp(frames) => PopBounded(cfg, s, frames, limit);
      case ResetOp =>
    }
  }

  ghost predicate Below(s: State, limit: nat) {
    s.expected <= limit && forall k :: k in s.pending ==> k < limit
  }

  lemma {:induction false} PromoteBounded(cfg: Config, s: State, limit: nat)
    requires Below(s, limit)
    ensures Below(Promote(cfg, s), limit)
    decreases |s.pending|
  {
    if s.haveSequence && s.expected in s.pending {
      PromoteBounded(cfg, TakeNext(cfg, s), limit);
    }
  }

  lemma PushBounded(cfg: Config, s: State, sequence: nat, samples: seq<Sample>, limit: nat)
    requires Below(s, limit) && sequence < limit
    ensures Below(Push(cfg, s, sequence, samples), limit)
  {
    if samples != [] && !IsLate(s, sequence) {
      PromoteBounded(cfg, Enqueue(Admit(s, sequence), sequence, samples), limit);
    }
  }

  lemma RefillBounded(cfg: Config, s: State, limit: nat)
    requires Core(cfg, s) && cfg.capacity > 0 && Settled(s) && Below(s, limit)
    ensures Below(Refill(cfg, s), limit)
  {
    hide Core, Holdings;
    PromoteKeeps(cfg, s);
    SkipGapsOnce(cfg, s);
    if s.ready == [] && s.pending != map[] {
      SkipToKeeps(cfg, s);
      PromoteBounded(cfg, SkipTo(s, FirstKey(s.pending)), limit);
    }
  }

  lemma {:induction false} PlayBounded(cfg: Config, s: State, need: nat, limit: nat)
    requires Core(cfg, s) && cfg.capacity > 0 && Settled(s) && Below(s, limit)
    ensures Below(Play(cfg, s, need), limit)
    decreases need
  {
    hide Core, Settled, Holdings, Refill;
    if need > 0 {
      RefillKeeps(cfg, s);
      RefillBounded(cfg, s, limit);
      var r := Refill(cfg, s);
      if r.ready != [] {
        var n := Min(need, |r.ready|);
        EmitKeeps(cfg, r, n);
        PlayBounded(cfg, Emit(r, n), need - n, limit);
      }
    }
  }

  lemma PopBounded(cfg: Config, s: State, frames: nat, limit: nat)
    requires Inv(cfg, s) && cfg.capacity > 0 && Below(s, limit)
    ensures Below(Pop(cfg, s, frames), limit)
  {
    BeginKeeps(cfg, s);
    hide Core, Begin, Holdings;
    if frames > 0 {
      PlayBounded(cfg, Begin(cfg, s), frames, limit);
    }
  }
}
