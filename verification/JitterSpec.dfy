/**
 The jitter buffer on values (src/core/jitter_buffer.cpp): what each public operation does
 to an abstract state. `JitterBuffer.dfy` proves the class over a ring array against it,
 `JitterInvariant.dfy` proves what every run of it keeps.

 Every frame in the ready queue carries where it came from: the epoch (a new one begins at
 each sequence restart and each reset), the packet's sequence number and the offset inside
 the packet. `History` is bookkeeping that the program does not have; no operation reads it.
 */
module JitterSpec {
  import opened Basics
  import opened Pcm

  const RESTART_PACKET_GAP: nat := 256

  datatype Frame = Frame(epoch: nat, sequence: nat, offset: nat, sample: Sample)

  datatype Config = Config(startThreshold: nat, capacity: nat)

  datatype Stats = Stats(
    packetsPushed: nat, framesPushed: nat, lateOrDuplicatePackets: nat,
    sequenceGaps: nat, sequenceRestarts: nat, overflowDroppedFrames: nat,
    underrunEvents: nat, underrunFrames: nat,
    startupUnderrunEvents: nat, startupUnderrunFrames: nat,
    afterStartUnderrunEvents: nat, afterStartUnderrunFrames: nat,
    renderedFrames: nat, renderEvents: nat,
    currentFrames: nat, maxFramesSeen: nat, started: bool)

  datatype History = History(
    epoch: nat,
    start: nat,                              // first expected sequence number of this epoch
    appended: seq<nat>,                      // packets of this epoch moved into the ready queue, in order
    gapsBefore: nat,                         // the gap counter when this epoch began
    accepted: map<(nat, nat), seq<Sample>>,  // first copy of every accepted packet, by (epoch, sequence)
    discarded: nat,                          // frames thrown away by restarts and resets
    played: seq<Frame>)                      // every real frame handed out so far

  datatype State = State(
    ready: seq<Frame>, pending: map<nat, seq<Sample>>,
    expected: nat, haveSequence: bool, stats: Stats, history: History)

  const ZERO_STATS := Stats(0, 0, 0, 0, 0, 0, 0, 0, 0, 0, 0, 0, 0, 0, 0, 0, false)

  const INITIAL := State([], map[], 0, false, ZERO_STATS, History(0, 0, [], 0, map[], 0, []))

  function LastN<T>(s: seq<T>, n: nat): (r: seq<T>)
    ensures |r| == Min(|s|, n)
  {
    if |s| <= n then s else s[|s| - n..]
  }

  function Tagged(epoch: nat, sequence: nat, samples: seq<Sample>): seq<Frame> {
    seq(|samples|, i requires 0 <= i < |samples| => Frame(epoch, sequence, i, samples[i]))
  }

  function Samples(frames: seq<Frame>): (samples: seq<Sample>)
    ensures |samples| == |frames|
  {
    seq(|frames|, i requires 0 <= i < |frames| => frames[i].sample)
  }

  /** All frames of the packets in a map. */
  ghost function TotalFrames(packets: map<nat, seq<Sample>>): nat {
    if packets == map[] then 0
    else
      var k :| k in packets;
      |packets[k]| + TotalFrames(packets - {k})
  }

  lemma {:induction false} TotalFramesRemove(packets: map<nat, seq<Sample>>, k: nat)
    requires k in packets
    ensures TotalFrames(packets) == |packets[k]| + TotalFrames(packets - {k})
    decreases |packets|
  {
    var j :| j in packets && TotalFrames(packets) == |packets[j]| + TotalFrames(packets - {j});
    if j != k {
      TotalFramesRemove(packets - {j}, k);
      TotalFramesRemove(packets - {k}, j);
      assert packets - {j} - {k} == packets - {k} - {j};
    }
  }

  predicate IsFirst(keys: set<nat>, k: nat) {
    k in keys && forall j :: j in keys ==> k <= j
  }

  lemma {:induction false} FirstExists(keys: set<nat>)
    requires keys != {}
    ensures exists k :: IsFirst(keys, k)
    decreases |keys|
  {
    var k :| k in keys;
    var rest := keys - {k};
    if rest == {} {
      FirstOfAll(keys, k, k);
    } else {
      FirstExists(rest);
      var m :| IsFirst(rest, m);
      FirstOfAll(keys, k, m);
    }
  }

  lemma FirstOfAll(keys: set<nat>, k: nat, m: nat)
    requires k in keys && (if keys == {k} then m == k else IsFirst(keys - {k}, m))
    ensures IsFirst(keys, Min(k, m))
  {
    forall j | j in keys && j != k ensures m <= j {
      assert j in keys - {k};
    }
  }

  /** The smallest waiting sequence number. */
  ghost function FirstKey(packets: map<nat, seq<Sample>>): (k: nat)
    requires packets != map[]
    ensures IsFirst(packets.Keys, k)
  {
    FirstExists(packets.Keys);
    var k :| IsFirst(packets.Keys, k);
    k
  }

  function Refresh(s: State): State {
    s.(stats := s.stats.(currentFrames := |s.ready|))
  }

  /** Counts a packet that is dropped because it is late or already waiting. */
  function Late(s: State): State {
    s.(stats := s.stats.(lateOrDuplicatePackets := s.stats.lateOrDuplicatePackets + 1))
  }

  ghost function Cleared(s: State, expected: nat, haveSequence: bool): State {
    State([], map[], expected, haveSequence,
          s.stats.(started := false, currentFrames := 0),
          s.history.(epoch := s.history.epoch + 1, start := expected, appended := [],
                     gapsBefore := s.stats.sequenceGaps,
                     discarded := s.history.discarded + |s.ready| + TotalFrames(s.pending)))
  }

  ghost function Restart(s: State, sequence: nat): State {
    var c := Cleared(s, sequence, true);
    c.(stats := c.stats.(sequenceRestarts := c.stats.sequenceRestarts + 1))
  }

  ghost function Reset(s: State): State {
    Cleared(s, 0, false)
  }

  /** The stream position against which a packet is judged: set by the first packet, moved by a large jump. */
  ghost function Admit(s: State, sequence: nat): State {
    if !s.haveSequence then
      s.(expected := sequence, haveSequence := true, history := s.history.(start := sequence))
    else if sequence < s.expected && s.expected - sequence > RESTART_PACKET_GAP then Restart(s, sequence)
    else if sequence >= s.expected && sequence - s.expected > RESTART_PACKET_GAP then Restart(s, sequence)
    else s
  }

  function Enqueue(s: State, sequence: nat, samples: seq<Sample>): State {
    s.(pending := s.pending[sequence := samples],
       history := s.history.(accepted := s.history.accepted[(s.history.epoch, sequence) := samples]))
  }

  /** The counters after appending `added` frames to `had`, of which `kept` fit. */
  function Appended(stats: Stats, had: nat, added: nat, kept: nat): Stats
    requires kept <= had + added
  {
    stats.(overflowDroppedFrames := stats.overflowDroppedFrames + had + added - kept,
           maxFramesSeen := if added == 0 then stats.maxFramesSeen else Max(stats.maxFramesSeen, kept))
  }

  /** Moves the expected packet into the ready queue, which keeps its last `capacity` frames. */
  function TakeNext(cfg: Config, s: State): State
    requires s.expected in s.pending
  {
    var samples := s.pending[s.expected];
    var all := s.ready + Tagged(s.history.epoch, s.expected, samples);
    var ready := LastN(all, cfg.capacity);
    State(ready, s.pending - {s.expected}, s.expected + 1, s.haveSequence,
          Appended(s.stats, |s.ready|, |samples|, |ready|),
          s.history.(appended := s.history.appended + [s.expected]))
  }

  function Promote(cfg: Config, s: State): State
    decreases |s.pending|
  {
    if s.haveSequence && s.expected in s.pending then Promote(cfg, TakeNext(cfg, s)) else s
  }

  function Counted(s: State, frames: nat): State {
    s.(stats := s.stats.(packetsPushed := s.stats.packetsPushed + 1, framesPushed := s.stats.framesPushed + frames))
  }

  /** Is the packet behind the stream, but not so far behind that the stream restarts? */
  predicate IsLate(s: State, sequence: nat) {
    s.haveSequence && sequence < s.expected && s.expected - sequence <= RESTART_PACKET_GAP
  }

  ghost function Push(cfg: Config, s: State, sequence: nat, samples: seq<Sample>): State {
    if samples == [] then s
    else if IsLate(s, sequence) then Late(s)
    else
      var a := Admit(s, sequence);
      if sequence in a.pending then Late(a)
      else Refresh(Counted(Promote(cfg, Enqueue(a, sequence, samples)), |samples|))
  }

  /** Gives up on the missing numbers below `sequence`. */
  function SkipTo(s: State, sequence: nat): State
    requires s.expected <= sequence
  {
    s.(expected := sequence, stats := s.stats.(sequenceGaps := s.stats.sequenceGaps + sequence - s.expected))
  }

  function DropStale(s: State, sequence: nat): State {
    Late(s.(pending := s.pending - {sequence}))
  }

  /** Drops a stale packet, or jumps to the first waiting one. */
  ghost function SkipStep(cfg: Config, s: State): State
    requires s.pending != map[]
  {
    var first := FirstKey(s.pending);
    if first < s.expected then DropStale(s, first) else Promote(cfg, SkipTo(s, first))
  }

  /** Looks for something to play once the ready queue is dry. */
  ghost function SkipGaps(cfg: Config, s: State): State
    decreases |s.pending|
  {
    if s.ready == [] && s.haveSequence && s.pending != map[] then
      SkipShrinks(cfg, s);
      SkipGaps(cfg, SkipStep(cfg, s))
    else s
  }

  lemma {:induction false} PromoteShrinks(cfg: Config, s: State)
    ensures |Promote(cfg, s).pending| <= |s.pending|
    decreases |s.pending|
  {
    if s.haveSequence && s.expected in s.pending {
      PromoteShrinks(cfg, TakeNext(cfg, s));
    }
  }

  lemma SkipShrinks(cfg: Config, s: State)
    requires s.haveSequence && s.pending != map[]
    ensures |SkipStep(cfg, s).pending| < |s.pending|
  {
    var first := FirstKey(s.pending);
    if first >= s.expected {
      PromoteShrinks(cfg, TakeNext(cfg, SkipTo(s, first)));
    }
  }

  function Emit(s: State, n: nat): State
    requires n <= |s.ready|
  {
    s.(ready := s.ready[n..], history := s.history.(played := s.history.played + s.ready[..n]))
  }

  function Underrun(s: State, missing: nat): State {
    s.(stats := s.stats.(
         underrunEvents := s.stats.underrunEvents + 1, underrunFrames := s.stats.underrunFrames + missing,
         afterStartUnderrunEvents := s.stats.afterStartUnderrunEvents + 1,
         afterStartUnderrunFrames := s.stats.afterStartUnderrunFrames + missing))
  }

  function StartupUnderrun(s: State, missing: nat): State {
    s.(stats := s.stats.(
         underrunEvents := s.stats.underrunEvents + 1, underrunFrames := s.stats.underrunFrames + missing,
         startupUnderrunEvents := s.stats.startupUnderrunEvents + 1,
         startupUnderrunFrames := s.stats.startupUnderrunFrames + missing))
  }

  /** The ready queue, refilled when it is dry. */
  ghost function Refill(cfg: Config, s: State): State {
    if s.ready == [] then SkipGaps(cfg, Promote(cfg, s)) else s
  }

  /** Hands out up to `need` frames; what is missing stays silence. */
  ghost function Play(cfg: Config, s: State, need: nat): State
    decreases need
  {
    if need == 0 then s
    else
      var r := Refill(cfg, s);
      if r.ready == [] then Underrun(r, need)
      else
        var n := Min(need, |r.ready|);
        Play(cfg, Emit(r, n), need - n)
  }

  /** Counts the render event; playback starts once enough frames are ready. */
  function Begin(cfg: Config, s: State): State {
    var c := s.(stats := s.stats.(renderEvents := s.stats.renderEvents + 1));
    if c.stats.started then c
    else
      var p := Promote(cfg, c);
      if |p.ready| < cfg.startThreshold then p else p.(stats := p.stats.(started := true))
  }

  ghost function Pop(cfg: Config, s: State, frames: nat): State {
    if frames == 0 then s
    else
      var b := Begin(cfg, s);
      Rendered(if b.stats.started then Play(cfg, b, frames) else StartupUnderrun(b, frames), frames)
  }

  function Rendered(s: State, frames: nat): State {
    Refresh(s.(stats := s.stats.(renderedFrames := s.stats.renderedFrames + frames)))
  }

  /** The real frames a `Pop` handed out. */
  ghost function PopOutput(cfg: Config, s: State, frames: nat): seq<Frame>
  {
    var before, after := s.history.played, Pop(cfg, s, frames).history.played;
    if |before| <= |after| then after[|before|..] else []
  }

  datatype Op = PushOp(sequence: nat, samples: seq<Sample>) | PopOp(frames: nat) | ResetOp

  ghost function Step(cfg: Config, s: State, op: Op): State {
    match op
    case PushOp(sequence, samples) => Push(cfg, s, sequence, samples)
    case PopOp(frames) => Pop(cfg, s, frames)
    case ResetOp => Reset(s)
  }

  /** The state after a run of operations from construction. */
  ghost function Run(cfg: Config, ops: seq<Op>): State {
    if ops == [] then INITIAL else Step(cfg, Run(cfg, ops[..|ops| - 1]), ops[|ops| - 1])
  }
}
