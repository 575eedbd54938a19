/** What every history of one started peer promises: justified timeouts, honest round-trip times, a probe soon. */
module PresenceRuns {
  import opened Basics
  import opened PresenceSpec

  datatype Event =
    | Ticked(nowMs: nat, draw: nat)
    | Received(packet: Packet, nowMs: nat, draw: nat)
    | Heard(nowMs: nat, draw: nat)             // an audio packet

  function Step(p: PeerState, e: Event): PeerState {
    match e
    case Ticked(nowMs, draw) => Tick(p, nowMs, draw).0
    case Received(packet, nowMs, draw) => OnPacket(p, packet, nowMs, draw).0
    case Heard(nowMs, draw) => OnAudio(p, nowMs, draw)
  }

  function Started(nowMs: nat): PeerState {
    INITIAL_PEER.(nextProbeAtMs := nowMs)
  }

  /** The peer after the first `n` events. */
  function After(startMs: nat, events: seq<Event>, n: nat): PeerState
    requires n <= |events|
  {
    if n == 0 then Started(startMs) else Step(After(startMs, events, n - 1), events[n - 1])
  }

  /** Does event `i` send a ping with this nonce? */
  predicate Pings(startMs: nat, events: seq<Event>, i: nat, nonce: nat)
    requires i < |events|
  {
    events[i].Ticked? && Action(Ping, nonce) in Tick(After(startMs, events, i), events[i].nowMs, events[i].draw).1
  }

  predicate InTimeOrder(startMs: nat, events: seq<Event>) {
    && (forall i :: 0 <= i < |events| ==> startMs <= events[i].nowMs)
    && (forall i, j :: 0 <= i < j < |events| ==> events[i].nowMs <= events[j].nowMs)
  }

  /** The events, among the first `n`, that sent a ping of the probe now outstanding. */
  function Probe(startMs: nat, events: seq<Event>, n: nat): seq<nat>
    requires n <= |events|
  {
    if n == 0 then []
    else
      var p, e := After(startMs, events, n - 1), events[n - 1];
      if e.Ticked? && Retries(p, e.nowMs) then Probe(startMs, events, n - 1) + [n - 1]
      else if e.Ticked? && Probes(p, e.nowMs) then [n - 1]
      else if Step(p, e).awaitingPong then Probe(startMs, events, n - 1)
      else []
  }

  /** The outstanding probe: one ping per attempt, spaced by the retry times, unanswered so far. */
  ghost predicate ProbeHolds(startMs: nat, events: seq<Event>, n: nat)
    requires n <= |events|
  {
    var p, probe := After(startMs, events, n), Probe(startMs, events, n);
    p.awaitingPong ==>
      && 1 <= p.attempts <= 3 && |probe| == p.attempts
      && (forall k :: 0 <= k < |probe| ==> probe[k] < n)
      && events[probe[0]].nowMs == p.pingStartedAtMs
      && (forall k :: 0 < k < |probe| ==>
            && probe[k - 1] < probe[k]
            && events[probe[k]].nowMs >= events[probe[k - 1]].nowMs + (if k == 1 then 1_000 else 2_000))
      && p.retryAtMs == events[probe[|probe| - 1]].nowMs + (if |probe| == 1 then 1_000 else 2_000)
      && (forall i :: probe[0] <= i < n ==> (Pings(startMs, events, i, p.pendingNonce) <==> i in probe))
      && (forall i :: probe[0] <= i < n && events[i].Received? && events[i].packet.kind.Pong? ==>
            events[i].packet.nonce != p.pendingNonce)
  }

  lemma NewProbe(startMs: nat, events: seq<Event>, n: nat)
    requires 0 < n <= |events|
    requires events[n - 1].Ticked? && Probes(After(startMs, events, n - 1), events[n - 1].nowMs)
    ensures ProbeHolds(startMs, events, n)
  {
    hide Interval;
    assert Probe(startMs, events, n) == [n - 1];
  }

  lemma RetriedProbe(startMs: nat, events: seq<Event>, n: nat)
    requires 0 < n <= |events| && ProbeHolds(startMs, events, n - 1)
    requires events[n - 1].Ticked? && Retries(After(startMs, events, n - 1), events[n - 1].nowMs)
    ensures ProbeHolds(startMs, events, n)
  {
    hide Interval;
    var before, probe := Probe(startMs, events, n - 1), Probe(startMs, events, n);
    assert probe == before + [n - 1];
    assert Pings(startMs, events, n - 1, After(startMs, events, n).pendingNonce);
    assert forall i :: i in probe <==> i in before || i == n - 1;
    assert forall k :: 0 <= k < |before| ==> probe[k] == before[k];
    hide Pings, After, Probe;
  }

  lemma QuietProbe(startMs: nat, events: seq<Event>, n: nat)
    requires 0 < n <= |events| && ProbeHolds(startMs, events, n - 1)
    requires events[n - 1].Ticked? ==>
      && !Retries(After(startMs, events, n - 1), events[n - 1].nowMs)
      && !Probes(After(startMs, events, n - 1), events[n - 1].nowMs)
    ensures ProbeHolds(startMs, events, n)
  {
    hide Step, Tick, Retries, Probes;
    var p, q := After(startMs, events, n - 1), After(startMs, events, n);
    if q.awaitingPong {
      StepQuiet(p, events[n - 1]);
      assert Probe(startMs, events, n) == Probe(startMs, events, n - 1);
      assert !Pings(startMs, events, n - 1, q.pendingNonce);
      hide Pings, After, Probe;
    }
  }

  /** An event that sends no ping leaves an outstanding probe as it is, unless it ends it. */
  lemma StepQuiet(p: PeerState, e: Event)
    requires Step(p, e).awaitingPong && (e.Ticked? ==> !Retries(p, e.nowMs) && !Probes(p, e.nowMs))
    ensures var q := Step(p, e);
      && p.awaitingPong && q.pendingNonce == p.pendingNonce && q.attempts == p.attempts
      && q.retryAtMs == p.retryAtMs && q.pingStartedAtMs == p.pingStartedAtMs
    ensures e.Ticked? ==> Tick(p, e.nowMs, e.draw).1 == []
    ensures e.Received? && e.packet.kind.Pong? ==> e.packet.nonce != p.pendingNonce
  {
    hide Interval;
  }

  lemma {:induction false} ProbeAlways(startMs: nat, events: seq<Event>, n: nat)
    requires n <= |events|
    ensures ProbeHolds(startMs, events, n)
  {
    if n > 0 {
      ProbeAlways(startMs, events, n - 1);
      hide ProbeHolds;
      var p, e := After(startMs, events, n - 1), events[n - 1];
      if e.Ticked? && Probes(p, e.nowMs) {
        NewProbe(startMs, events, n);
      } else if e.Ticked? && Retries(p, e.nowMs) {
        RetriedProbe(startMs, events, n);
      } else {
        QuietProbe(startMs, events, n);
      }
    }
  }

  /** Three pings with one nonce, the first at least five seconds before `nowMs`, and no answer to them. */
  predicate Exhausted(startMs: nat, events: seq<Event>, first: nat, second: nat, third: nat, nonce: nat, nowMs: nat) {
    && first < second < third < |events|
    && (forall i :: first <= i < |events| ==>
         (Pings(startMs, events, i, nonce) <==> i == first || i == second || i == third))
    && events[second].nowMs >= events[first].nowMs + 1_000
    && events[third].nowMs >= events[second].nowMs + 2_000
    && nowMs >= events[third].nowMs + 2_000
    && (forall i :: first <= i < |events| && events[i].Received? && events[i].packet.kind.Pong? ==>
         events[i].packet.nonce != nonce)
  }

  /** Does a tick after these events give up on the peer? */
  predicate TurnsOffline(p: PeerState, nowMs: nat, draw: nat) {
    var q := Tick(p, nowMs, draw).0;
    (p.awaitingPong && !q.awaitingPong) || q.visible.state != p.visible.state || q.visible.rttMs != p.visible.rttMs
  }

  /**
   A timeout is justified: when a tick gives up a probe, changes the visible state or drops the
   round-trip time, exactly three pings were sent for one nonce, over at least five seconds,
   and no matching pong came in between.
   */
  lemma TimeoutJustified(startMs: nat, events: seq<Event>, nowMs: nat, draw: nat)
    requires TurnsOffline(After(startMs, events, |events|), nowMs, draw)
    ensures var p := After(startMs, events, |events|);
      && Tick(p, nowMs, draw).0.visible.state != Online && Tick(p, nowMs, draw).0.visible.rttMs == -1
      && exists first, second, third :: Exhausted(startMs, events, first, second, third, p.pendingNonce, nowMs)
  {
    hide Interval;
    ProbeAlways(startMs, events, |events|);
    var p, probe := After(startMs, events, |events|), Probe(startMs, events, |events|);
    assert GivesUp(p, nowMs);
    hide After, Probe, Pings;
    assert Exhausted(startMs, events, probe[0], probe[1], probe[2], p.pendingNonce, nowMs);
  }

  /** Pings from the peer and audio never cancel an outstanding probe or postpone its retry. */
  lemma ProbeSurvives(p: PeerState, e: Event)
    requires p.awaitingPong && (e.Heard? || (e.Received? && e.packet.kind.Ping?))
    ensures var q := Step(p, e);
      q.awaitingPong && q.pendingNonce == p.pendingNonce && q.attempts == p.attempts
      && q.retryAtMs == p.retryAtMs && q.pingStartedAtMs == p.pingStartedAtMs && q.visible.state == Online
  {
  }

  function Deadline(p: PeerState): nat {
    if p.awaitingPong then p.retryAtMs else p.nextProbeAtMs
  }

  function LastMs(startMs: nat, events: seq<Event>): nat {
    if events == [] then startMs else events[|events| - 1].nowMs
  }

  /** A tick at the deadline always acts, and the deadline is never more than two minutes after the last event. */
  lemma {:induction false} ProbedSoon(startMs: nat, events: seq<Event>)
    requires InTimeOrder(startMs, events)
    ensures var p := After(startMs, events, |events|);
      && Deadline(p) <= LastMs(startMs, events) + OFFLINE_PROBE_MAXIMUM_MS
      && forall nowMs: nat :: nowMs >= Deadline(p) <==> GivesUp(p, nowMs) || Retries(p, nowMs) || Probes(p, nowMs)
  {
    if events != [] {
      var before := events[..|events| - 1];
      ProbedSoon(startMs, before);
      AfterSame(startMs, before, events, |before|);
      StepDeadline(After(startMs, before, |before|), events[|events| - 1], LastMs(startMs, before));
    }
  }

  lemma StepDeadline(p: PeerState, e: Event, lastMs: nat)
    requires Deadline(p) <= lastMs + OFFLINE_PROBE_MAXIMUM_MS && lastMs <= e.nowMs
    ensures Deadline(Step(p, e)) <= e.nowMs + OFFLINE_PROBE_MAXIMUM_MS
  {
    hide Interval;
  }

  lemma {:induction false} AfterSame(startMs: nat, a: seq<Event>, b: seq<Event>, n: nat)
    requires n <= |a| && n <= |b| && a[..n] == b[..n]
    ensures After(startMs, a, n) == After(startMs, b, n)
  {
    if n > 0 {
      assert a[n - 1] == a[..n][n - 1] == b[n - 1];
      assert a[..n - 1] == a[..n][..n - 1] == b[..n - 1];
      AfterSame(startMs, a, b, n - 1);
    }
  }

  // ----- round-trip times -----

  /** A visible round-trip time was measured by a pong of the session shown, from the first ping of its nonce. */
  predicate Measured(startMs: nat, events: seq<Event>, n: nat, first: nat, pong: nat)
    requires n <= |events|
  {
    var v := After(startMs, events, n).visible;
    && first < pong < n && events[first].Ticked? && Probes(After(startMs, events, first), events[first].nowMs)
    && events[pong].Received? && events[pong].packet.kind.Pong?
    && events[pong].packet.sessionId == v.remoteSessionId
    && Pings(startMs, events, first, events[pong].packet.nonce)
    && (forall i :: first < i < pong ==> !(events[i].Ticked? && Probes(After(startMs, events, i), events[i].nowMs)))
    && v.rttMs == events[pong].nowMs - events[first].nowMs
  }

  lemma ProbeStarts(p: PeerState, e: Event)
    requires e.Ticked? && Probes(p, e.nowMs)
    ensures Step(p, e).pingStartedAtMs == e.nowMs
    ensures Tick(p, e.nowMs, e.draw).1 == [Action(Ping, Step(p, e).pendingNonce)]
  {
  }

  /** A probe that is outstanding after an event that started none was outstanding before. */
  lemma SameProbe(p: PeerState, e: Event)
    requires Step(p, e).awaitingPong && !(e.Ticked? && Probes(p, e.nowMs))
    ensures var q := Step(p, e);
      p.awaitingPong && q.pendingNonce == p.pendingNonce && q.pingStartedAtMs == p.pingStartedAtMs
  {
    hide Interval;
  }

  lemma {:induction false} FirstPingKnown(startMs: nat, events: seq<Event>, n: nat) returns (first: nat)
    requires n <= |events| && After(startMs, events, n).awaitingPong
    ensures var p := After(startMs, events, n);
      && first < n && events[first].Ticked? && Probes(After(startMs, events, first), events[first].nowMs)
      && Pings(startMs, events, first, p.pendingNonce) && p.pingStartedAtMs == events[first].nowMs
      && forall i :: first < i < n ==> !(events[i].Ticked? && Probes(After(startMs, events, i), events[i].nowMs))
  {
    hide Interval, Step;
    var p, e := After(startMs, events, n - 1), events[n - 1];
    if e.Ticked? && Probes(p, e.nowMs) {
      first := n - 1;
      ProbeStarts(p, e);
    } else {
      SameProbe(p, e);
      first := FirstPingKnown(startMs, events, n - 1);
    }
  }

  /** In every history: a visible round-trip time means the peer is online and the time was really measured. */
  lemma {:induction false} RttHonest(startMs: nat, events: seq<Event>, n: nat)
    requires n <= |events| && After(startMs, events, n).visible.rttMs >= 0
    ensures After(startMs, events, n).visible.state == Online
    ensures exists first, pong :: Measured(startMs, events, n, first, pong)
  {
    hide Interval;
    var p, e := After(startMs, events, n - 1), events[n - 1];
    if e.Received? && e.packet.kind.Pong? && Matches(p, e.packet) {
      var first := FirstPingKnown(startMs, events, n - 1);
      assert Measured(startMs, events, n, first, n - 1);
    } else {
      assert After(startMs, events, n).visible.rttMs == p.visible.rttMs;
      RttHonest(startMs, events, n - 1);
      var first, pong :| Measured(startMs, events, n - 1, first, pong);
      assert Measured(startMs, events, n, first, pong);
    }
  }
}
