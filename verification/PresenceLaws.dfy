/**
 What one peer of the prober shows over every history, what each packet does to it, and when it
 is pinged, said over events and literal times.
 */
module PresenceLaws {
  import opened Basics
  import opened PresenceSpec
  import opened PresenceRuns

  // ----- single packets -----

  /** A time between two bounds after another. */
  predicate Within(timeMs: nat, nowMs: nat, minimumMs: nat, maximumMs: nat) {
    nowMs + minimumMs <= timeMs <= nowMs + maximumMs
  }

  /** A GOODBYE of the session shown takes the peer offline; one of another session, or before any is known, nothing. */
  lemma GoodbyeTakesOffline(p: PeerState, packet: Packet, nowMs: nat, draw: nat)
    requires packet.kind.Goodbye?
    ensures var (q, replies) := OnPacket(p, packet, nowMs, draw);
      && replies == []
      && if packet.sessionId == p.visible.remoteSessionId != 0 then
           && q == p.(visible := p.visible.(state := Offline, rttMs := -1), awaitingPong := false,
                      nextProbeAtMs := q.nextProbeAtMs)
           && Within(q.nextProbeAtMs, nowMs, 60_000, 120_000)
         else q == p
  {
    hide Interval;
  }

  /**
   A PING shows its session and takes the peer online, keeps a round-trip time of the same session
   only, leaves an outstanding probe alone, and is answered by one PONG with its nonce. Without an
   outstanding probe the next one is at once, if no time is known, or 25 to 35 seconds later.
   */
  lemma PingAnswered(p: PeerState, packet: Packet, nowMs: nat, draw: nat)
    requires packet.kind.Ping?
    ensures var (q, replies) := OnPacket(p, packet, nowMs, draw);
      && replies == [Action(Pong, packet.nonce)]
      && q.visible == Snapshot(Online, packet.sessionId, nowMs,
                               if packet.sessionId == p.visible.remoteSessionId then p.visible.rttMs else -1)
      && (p.awaitingPong ==> q == p.(visible := q.visible))
      && (!p.awaitingPong ==>
            && !q.awaitingPong
            && if q.visible.rttMs < 0 then q.nextProbeAtMs == nowMs
               else Within(q.nextProbeAtMs, nowMs, 25_000, 35_000))
  {
    hide Interval;
  }

  /** A PONG with the outstanding nonce ends the probe and shows the time since its first ping; any other is ignored. */
  lemma PongMeasures(p: PeerState, packet: Packet, nowMs: nat, draw: nat)
    requires packet.kind.Pong?
    ensures var (q, replies) := OnPacket(p, packet, nowMs, draw);
      && replies == []
      && if p.awaitingPong && packet.nonce == p.pendingNonce then
           && q.visible == Snapshot(Online, packet.sessionId, nowMs,
                                    if nowMs >= p.pingStartedAtMs then nowMs - p.pingStartedAtMs else -1)
           && !q.awaitingPong && Within(q.nextProbeAtMs, nowMs, 25_000, 35_000)
         else q == p
  {
    hide Interval;
  }

  /** Audio takes the peer online and touches neither its session nor its time nor an outstanding probe. */
  lemma AudioHeard(p: PeerState, nowMs: nat, draw: nat)
    ensures var q := OnAudio(p, nowMs, draw);
      && q.visible == p.visible.(state := Online, lastSeenMs := nowMs)
      && (p.awaitingPong ==> q == p.(visible := q.visible))
      && (!p.awaitingPong ==> !q.awaitingPong && Within(q.nextProbeAtMs, nowMs, 25_000, 35_000))
  {
    hide Interval;
  }

  // ----- the schedule of a probe -----

  /** The peer after ticks, each with its time and its draw, and the pings sent. */
  function Ticks(p: PeerState, ticks: seq<(nat, nat)>): (PeerState, seq<Action>)
    decreases |ticks|
  {
    if ticks == [] then (p, [])
    else
      var (q, sent) := Tick(p, ticks[0].0, ticks[0].1);
      var (r, more) := Ticks(q, ticks[1..]);
      (r, sent + more)
  }

  predicate AllBefore(ticks: seq<(nat, nat)>, deadline: nat) {
    forall i :: 0 <= i < |ticks| ==> ticks[i].0 < deadline
  }

  function DueMs(p: PeerState): nat {
    if p.awaitingPong then p.retryAtMs else p.nextProbeAtMs
  }

  lemma {:induction false} NothingDue(p: PeerState, ticks: seq<(nat, nat)>)
    requires AllBefore(ticks, DueMs(p))
    ensures Ticks(p, ticks) == (p, [])
    decreases |ticks|
  {
    if ticks != [] {
      assert Tick(p, ticks[0].0, ticks[0].1) == (p, []);
      NothingDue(p, ticks[1..]);
      var more: seq<Action> := Ticks(p, ticks[1..]).1;
      assert [] + more == [];
    }
  }

  /**
   The exact schedule of an unanswered probe. Before its time nothing happens. The first tick from
   then on, at `t0`, sends a ping with a new nonce; the first one at least 1000 ms later and the
   first one at least 2000 ms after that send it again; the first one at least 2000 ms after the
   third ping gives up: no ping, no round-trip time, offline unless nothing was ever known, and
   the next probe 60 to 120 seconds later. No tick between sends or changes anything.
   */
  lemma ProbeSchedule(p: PeerState, before0: seq<(nat, nat)>, t0: nat, nonce: nat,
                      before1: seq<(nat, nat)>, t1: nat, before2: seq<(nat, nat)>, t2: nat,
                      before3: seq<(nat, nat)>, t3: nat, draw: nat)
    requires !p.awaitingPong && AllBefore(before0, p.nextProbeAtMs) && t0 >= p.nextProbeAtMs
    requires AllBefore(before1, t0 + 1_000) && t1 >= t0 + 1_000
    requires AllBefore(before2, t1 + 2_000) && t2 >= t1 + 2_000
    requires AllBefore(before3, t2 + 2_000) && t3 >= t2 + 2_000
    ensures var ping := [Action(Ping, nonce)];
      var (p0, s0) := Tick(p, t0, nonce);
      var (p1, s1) := Tick(p0, t1, draw);
      var (p2, s2) := Tick(p1, t2, draw);
      var (p3, s3) := Tick(p2, t3, draw);
      && Ticks(p, before0) == (p, []) && s0 == ping
      && Ticks(p0, before1) == (p0, []) && s1 == ping
      && Ticks(p1, before2) == (p1, []) && s2 == ping
      && Ticks(p2, before3) == (p2, []) && s3 == []
      && p0.awaitingPong && p0.pendingNonce == nonce && p0.pingStartedAtMs == t0
      && p0.visible == p1.visible == p2.visible == p.visible
      && p2.awaitingPong && p2.pendingNonce == nonce && p2.pingStartedAtMs == t0
      && !p3.awaitingPong && Within(p3.nextProbeAtMs, t3, 60_000, 120_000)
      && p3.visible == p.visible.(rttMs := -1,
                                  state := if p.visible.state == Unknown then Unknown else Offline)
  {
    hide Interval, Ticks;
    NothingDue(p, before0);
    var p0 := Tick(p, t0, nonce).0;
    NothingDue(p0, before1);
    var p1 := Tick(p0, t1, draw).0;
    NothingDue(p1, before2);
    var p2 := Tick(p1, t2, draw).0;
    NothingDue(p2, before3);
  }

  // ----- what is shown over every history -----

  /** Event `i` is a sign of life: a ping, audio, or a pong with the nonce then outstanding. */
  predicate Seen(startMs: nat, events: seq<Event>, i: nat)
    requires i < |events|
  {
    match events[i]
    case Ticked(_, _) => false
    case Heard(_, _) => true
    case Received(packet, _, _) =>
      var p := After(startMs, events, i);
      packet.kind.Ping? || (packet.kind.Pong? && p.awaitingPong && packet.nonce == p.pendingNonce)
  }

  /** Event `i` ends it: a goodbye of the session then shown, or a tick that ends the outstanding probe. */
  predicate Lost(startMs: nat, events: seq<Event>, i: nat)
    requires i < |events|
  {
    var p := After(startMs, events, i);
    match events[i]
    case Ticked(_, _) => p.awaitingPong && !After(startMs, events, i + 1).awaitingPong
    case Heard(_, _) => false
    case Received(packet, _, _) => packet.kind.Goodbye? && packet.sessionId == p.visible.remoteSessionId != 0
  }

  /** A sign of life since which nothing ended it. */
  predicate LastSign(startMs: nat, events: seq<Event>, n: nat, i: nat)
    requires n <= |events|
  {
    i < n && Seen(startMs, events, i) && forall j :: i < j < n ==> !Lost(startMs, events, j)
  }

  lemma StepShows(startMs: nat, events: seq<Event>, n: nat)
    requires n < |events|
    ensures var v, w := After(startMs, events, n).visible, After(startMs, events, n + 1).visible;
      if Seen(startMs, events, n) then w.state == Online && w.lastSeenMs == events[n].nowMs
      else if Lost(startMs, events, n) then
        w.state == (if events[n].Ticked? && v.state == Unknown then Unknown else Offline) && w.rttMs == -1
        && w.lastSeenMs == v.lastSeenMs && w.remoteSessionId == v.remoteSessionId
      else w == v
  {
    hide Interval;
    assert After(startMs, events, n + 1) == Step(After(startMs, events, n), events[n]);
  }

  /**
   Over every history: a peer is shown online exactly when there was a sign of life and neither a
   goodbye of the session shown nor a probe given up came after it; it is shown as unknown
   exactly when there never was a sign of life.
   */
  lemma {:induction false} ShownState(startMs: nat, events: seq<Event>, n: nat)
    requires n <= |events|
    ensures var state := After(startMs, events, n).visible.state;
      && (state == Online <==> exists i :: LastSign(startMs, events, n, i))
      && (state == Unknown <==> forall i :: 0 <= i < n ==> !Seen(startMs, events, i))
  {
    hide After, Seen, Lost;
    if n == 0 {
      StartsUnknown(startMs, events);
    } else {
      ShownState(startMs, events, n - 1);
      StepShows(startMs, events, n - 1);
      if forall i :: 0 <= i < n - 1 ==> !Seen(startMs, events, i) {
        NoGoodbyeUnseen(startMs, events, n - 1);
      }
      if Seen(startMs, events, n - 1) {
        assert LastSign(startMs, events, n, n - 1);
      } else if After(startMs, events, n - 1).visible.state == Online && !Lost(startMs, events, n - 1) {
        var i :| LastSign(startMs, events, n - 1, i);
        assert LastSign(startMs, events, n, i);
      } else {
        forall i | 0 <= i < n ensures !LastSign(startMs, events, n, i) {
          assert !LastSign(startMs, events, n - 1, i) || Lost(startMs, events, n - 1);
        }
      }
    }
  }

  lemma StartsUnknown(startMs: nat, events: seq<Event>)
    ensures After(startMs, events, 0).visible == Snapshot(Unknown, 0, 0, -1)
  {
  }

  /** Without a sign of life no session is shown, so no goodbye counts. */
  lemma {:induction false} NoGoodbyeUnseen(startMs: nat, events: seq<Event>, n: nat)
    requires n < |events| && forall i :: 0 <= i < n ==> !Seen(startMs, events, i)
    ensures After(startMs, events, n).visible.remoteSessionId == 0
    ensures Lost(startMs, events, n) ==> events[n].Ticked?
  {
    if n > 0 {
      NoGoodbyeUnseen(startMs, events, n - 1);
      StepShows(startMs, events, n - 1);
    }
  }

  /** The session shown is that of the last ping or accepted pong. */
  predicate Names(startMs: nat, events: seq<Event>, i: nat)
    requires i < |events|
  {
    Seen(startMs, events, i) && events[i].Received?
  }

  /** Over every history: the session shown and the time last seen are those of the latest events that tell them. */
  lemma {:induction false} ShownSession(startMs: nat, events: seq<Event>, n: nat, i: nat)
    requires i < n <= |events|
    ensures Names(startMs, events, i) && (forall j :: i < j < n ==> !Names(startMs, events, j)) ==>
      After(startMs, events, n).visible.remoteSessionId == events[i].packet.sessionId
    ensures Seen(startMs, events, i) && (forall j :: i < j < n ==> !Seen(startMs, events, j)) ==>
      After(startMs, events, n).visible.lastSeenMs == events[i].nowMs
  {
    hide After, Seen;
    StepShows(startMs, events, n - 1);
    StepNames(startMs, events, n - 1);
    if i < n - 1 {
      ShownSession(startMs, events, n - 1, i);
    }
  }

  lemma StepNames(startMs: nat, events: seq<Event>, n: nat)
    requires n < |events|
    ensures After(startMs, events, n + 1).visible.remoteSessionId ==
      if Names(startMs, events, n) then events[n].packet.sessionId
        else After(startMs, events, n).visible.remoteSessionId
  {
    hide Interval;
    assert After(startMs, events, n + 1) == Step(After(startMs, events, n), events[n]);
  }
}
