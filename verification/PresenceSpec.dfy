/**
 The PING/PONG/GOODBYE prober of one peer (src/core/presence_tracker.cpp) as functions on the
 peer's state. An operation draws at most one random number, passed in as `draw`.
 */
module PresenceSpec {
  import opened Basics

  const ONLINE_PROBE_MINIMUM_MS: nat := 25_000
  const ONLINE_PROBE_MAXIMUM_MS: nat := 35_000
  const OFFLINE_PROBE_MINIMUM_MS: nat := 60_000
  const OFFLINE_PROBE_MAXIMUM_MS: nat := 120_000

  /** What other parts see of a peer; a negative round-trip time means none is known. */
  datatype Snapshot = Snapshot(state: PresenceState, remoteSessionId: nat, lastSeenMs: nat, rttMs: int)

  datatype PeerState = PeerState(
    visible: Snapshot,
    nextProbeAtMs: nat, pingStartedAtMs: nat, retryAtMs: nat,
    pendingNonce: nat, attempts: nat, awaitingPong: bool)

  const INITIAL_PEER := PeerState(Snapshot(Unknown, 0, 0, -1), 0, 0, 0, 0, 0, false)

  datatype Kind = Ping | Pong | Goodbye

  datatype Packet = Packet(kind: Kind, sessionId: nat, nonce: nat)

  datatype Action = Action(kind: Kind, nonce: nat)

  /** What the receiver lets through (src/core/udp_presence_packet.cpp). */
  predicate ValidPacket(packet: Packet) {
    packet.sessionId != 0 && (packet.kind.Goodbye? <==> packet.nonce == 0)
  }

  function Interval(draw: nat, minimumMs: nat, maximumMs: nat): (ms: nat)
    requires minimumMs <= maximumMs
    ensures minimumMs <= ms <= maximumMs
  {
    minimumMs + draw % (maximumMs - minimumMs + 1)
  }

  function MarkOnline(p: PeerState, nowMs: nat, preservePendingProbe: bool, draw: nat): PeerState {
    var q := p.(visible := p.visible.(state := Online, lastSeenMs := nowMs));
    if preservePendingProbe && p.awaitingPong then q
    else
      q.(awaitingPong := false, attempts := 0, pendingNonce := 0,
         nextProbeAtMs := nowMs + Interval(draw, ONLINE_PROBE_MINIMUM_MS, ONLINE_PROBE_MAXIMUM_MS))
  }

  function ScheduleOfflineProbe(p: PeerState, nowMs: nat, draw: nat): PeerState {
    p.(nextProbeAtMs := nowMs + Interval(draw, OFFLINE_PROBE_MINIMUM_MS, OFFLINE_PROBE_MAXIMUM_MS))
  }

  function GiveUp(p: PeerState, nowMs: nat, draw: nat): PeerState {
    var state := if p.visible.state == Unknown then Unknown else Offline;
    ScheduleOfflineProbe(p.(awaitingPong := false, visible := p.visible.(state := state, rttMs := -1)), nowMs, draw)
  }

  predicate GivesUp(p: PeerState, nowMs: nat) {
    p.awaitingPong && nowMs >= p.retryAtMs && p.attempts >= 3
  }

  predicate Retries(p: PeerState, nowMs: nat) {
    p.awaitingPong && nowMs >= p.retryAtMs && p.attempts < 3
  }

  predicate Probes(p: PeerState, nowMs: nat) {
    !p.awaitingPong && nowMs >= p.nextProbeAtMs
  }

  /** A new probe with a fresh nonce. */
  function EmitPing(p: PeerState, nowMs: nat, draw: nat): PeerState {
    p.(awaitingPong := true, pendingNonce := draw, pingStartedAtMs := nowMs, attempts := 1, retryAtMs := nowMs + 1_000)
  }

  function Tick(p: PeerState, nowMs: nat, draw: nat): (PeerState, seq<Action>) {
    if GivesUp(p, nowMs) then (GiveUp(p, nowMs, draw), [])
    else if Retries(p, nowMs) then
      (p.(attempts := p.attempts + 1, retryAtMs := nowMs + 2_000), [Action(Ping, p.pendingNonce)])
    else if Probes(p, nowMs) then (EmitPing(p, nowMs, draw), [Action(Ping, draw)])
    else (p, [])
  }

  predicate TickDraws(p: PeerState, nowMs: nat) {
    GivesUp(p, nowMs) || Probes(p, nowMs)
  }

  predicate Matches(p: PeerState, packet: Packet) {
    p.awaitingPong && packet.nonce == p.pendingNonce
  }

  predicate Leaves(p: PeerState, packet: Packet) {
    p.visible.remoteSessionId != 0 && p.visible.remoteSessionId == packet.sessionId
  }

  function OnPacket(p: PeerState, packet: Packet, nowMs: nat, draw: nat): (PeerState, seq<Action>) {
    match packet.kind
    case Ping =>
      var rtt := if p.visible.remoteSessionId != packet.sessionId then -1 else p.visible.rttMs;
      var heard := p.(visible := p.visible.(remoteSessionId := packet.sessionId, rttMs := rtt));
      var q := MarkOnline(heard, nowMs, true, draw);
      (if !q.awaitingPong && q.visible.rttMs < 0 then q.(nextProbeAtMs := nowMs) else q, [Action(Pong, packet.nonce)])
    case Pong =>
      if !Matches(p, packet) then (p, [])
      else
        var rtt := if nowMs >= p.pingStartedAtMs then nowMs - p.pingStartedAtMs else -1;
        var answered := p.(visible := p.visible.(remoteSessionId := packet.sessionId, rttMs := rtt));
        (MarkOnline(answered, nowMs, false, draw), [])
    case Goodbye =>
      if !Leaves(p, packet) then (p, [])
      else
        var gone := p.(awaitingPong := false, visible := p.visible.(state := Offline, rttMs := -1));
        (ScheduleOfflineProbe(gone, nowMs, draw), [])
  }

  predicate PacketDraws(p: PeerState, packet: Packet) {
    match packet.kind
    case Ping => !p.awaitingPong
    case Pong => Matches(p, packet)
    case Goodbye => Leaves(p, packet)
  }

  function OnAudio(p: PeerState, nowMs: nat, draw: nat): PeerState {
    MarkOnline(p, nowMs, true, draw)
  }

  // ----- the random numbers -----

  function FirstShift(x: bv64): bv64 { x ^ (x << 13) }

  function SecondShift(x: bv64): bv64 { x ^ (x >> 7) }

  function ThirdShift(x: bv64): bv64 { x ^ (x << 17) }

  /** The xorshift generator; zero is not a state. */
  function NextRandom(state: bv64): (next: bv64)
    ensures next != 0
  {
    var c := ThirdShift(SecondShift(FirstShift(state)));
    if c == 0 then 1 else c
  }

  lemma FirstShiftNonZero(x: bv64)
    requires x != 0
    ensures FirstShift(x) != 0
  {
  }

  lemma SecondShiftNonZero(x: bv64)
    requires x != 0
    ensures SecondShift(x) != 0
  {
  }

  lemma ThirdShiftNonZero(x: bv64)
    requires x != 0
    ensures ThirdShift(x) != 0
  {
  }

  /** From a non-zero state the guard against zero is never needed. */
  lemma XorshiftNeverZero(state: bv64)
    requires state != 0
    ensures NextRandom(state) == ThirdShift(SecondShift(FirstShift(state))) != 0
  {
    hide FirstShift, SecondShift, ThirdShift;
    FirstShiftNonZero(state);
    SecondShiftNonZero(FirstShift(state));
    ThirdShiftNonZero(SecondShift(FirstShift(state)));
  }

  /** The first draw from state 1, which fixes the shifts 13, 7 and 17. */
  lemma FirstDraw()
    ensures NextRandom(1) == 1_082_269_761
  {
  }

  function Draw(state: bv64): (draw: nat)
    ensures state != 0 ==> draw > 0
  {
    state as nat
  }
}
