/** The tracker object over all peers (src/core/presence_tracker.cpp). */
module PresenceTrackers {
  import opened Basics
  import opened PresenceSpec

  datatype PeerAction = PeerAction(peerIndex: nat, action: Action)

  function ActionsFor(index: nat, actions: seq<Action>): seq<PeerAction> {
    seq(|actions|, i requires 0 <= i < |actions| => PeerAction(index, actions[i]))
  }

  /** The generator after an operation that draws a number only if it `draws`. */
  function Drawn(randomState: bv64, draws: bool): bv64 {
    if draws then NextRandom(randomState) else randomState
  }

  datatype Ticked = Ticked(peers: seq<PeerState>, randomState: bv64, actions: seq<PeerAction>)

  /** The first `n` peers after a tick: they draw from the generator one after the other. */
  function TickFirst(peers: seq<PeerState>, randomState: bv64, nowMs: nat, n: nat): (t: Ticked)
    requires n <= |peers|
    ensures |t.peers| == n
  {
    if n == 0 then Ticked([], randomState, [])
    else
      var before := TickFirst(peers, randomState, nowMs, n - 1);
      var next := Drawn(before.randomState, TickDraws(peers[n - 1], nowMs));
      var (peer, actions) := Tick(peers[n - 1], nowMs, Draw(next));
      Ticked(before.peers + [peer], next, before.actions + ActionsFor(n - 1, actions))
  }

  /** Every peer of a tick is ticked on its own, with some non-zero draw. */
  lemma {:induction false} TickedPeer(peers: seq<PeerState>, randomState: bv64, nowMs: nat, n: nat, i: nat)
    requires i < n <= |peers| && randomState != 0
    ensures exists draw: nat ::
      draw > 0 && TickFirst(peers, randomState, nowMs, n).peers[i] == Tick(peers[i], nowMs, draw).0
  {
    hide NextRandom, Draw, Tick;
    if i == n - 1 {
      var before := TickFirst(peers, randomState, nowMs, n - 1);
      var next := Drawn(before.randomState, TickDraws(peers[n - 1], nowMs));
      NeverZero(peers, randomState, nowMs, n - 1);
      assert Draw(next) > 0;
    } else {
      TickedPeer(peers, randomState, nowMs, n - 1, i);
    }
  }

  lemma {:induction false} NeverZero(peers: seq<PeerState>, randomState: bv64, nowMs: nat, n: nat)
    requires n <= |peers| && randomState != 0
    ensures TickFirst(peers, randomState, nowMs, n).randomState != 0
  {
    hide NextRandom, Draw, Tick;
    if n > 0 {
      NeverZero(peers, randomState, nowMs, n - 1);
    }
  }

  class PresenceTracker {
    var peers: seq<PeerState>
    var actions: seq<PeerAction>
    var randomState: bv64
    var started: bool
    const sessionId: nat

    ghost predicate Valid()
      reads this
    {
      sessionId != 0 && randomState != 0
    }

    constructor (peerCount: nat, session: bv64, randomSeed: bv64)
      ensures Valid() && !started && peers == seq(peerCount, _ => INITIAL_PEER)
    {
      var id: bv64 := if session == 0 then 1 else session;
      peers, actions, started := seq(peerCount, _ => INITIAL_PEER), [], false;
      sessionId := Draw(id);
      randomState := if randomSeed == 0 then id else randomSeed;
    }

    method Start(nowMs: nat)
      modifies this`peers, this`started
      ensures started && peers ==
        seq(|old(peers)|, i requires 0 <= i < |old(peers)| => old(peers)[i].(nextProbeAtMs := nowMs))
    {
      started := true;
      var index := 0;
      while index < |peers|
        invariant started && index <= |peers| == |old(peers)|
        invariant forall i :: 0 <= i < |peers| ==>
          peers[i] == if i < index then old(peers)[i].(nextProbeAtMs := nowMs) else old(peers)[i]
      {
        peers := peers[index := peers[index].(nextProbeAtMs := nowMs)];
        index := index + 1;
      }
    }

    method Tick(nowMs: nat)
      requires Valid()
      modifies this`peers, this`actions, this`randomState
      ensures Valid()
      ensures !started ==> actions == [] && peers == old(peers) && randomState == old(randomState)
      ensures started ==>
        var all := TickFirst(old(peers), old(randomState), nowMs, |old(peers)|);
        peers == all.peers && randomState == all.randomState && actions == all.actions
    {
      hide PresenceSpec.Tick, TickDraws, Drawn, Draw, ActionsFor;
      actions := [];
      if !started {
        return;
      }
      var index := 0;
      while index < |peers|
        invariant index <= |peers| == |old(peers)| && Valid()
        invariant var done := TickFirst(old(peers), old(randomState), nowMs, index);
          peers[..index] == done.peers && randomState == done.randomState && actions == done.actions
        invariant peers[index..] == old(peers)[index..]
      {
        assert peers[index] == old(peers)[index];
        ghost var before := peers;
        TickPeer(index, nowMs);
        assert peers[..index + 1] == before[..index] + [peers[index]];
        assert peers[index + 1..] == before[index..][1..];
        index := index + 1;
      }
    }

    /** The loop body of `Tick`. */
    method TickPeer(index: nat, nowMs: nat)
      requires Valid() && index < |peers|
      modifies this`peers, this`actions, this`randomState
      ensures Valid() && randomState == Drawn(old(randomState), TickDraws(old(peers)[index], nowMs))
      ensures peers == old(peers)[index := PresenceSpec.Tick(old(peers)[index], nowMs, Draw(randomState)).0]
      ensures actions == old(actions) +
        ActionsFor(index, PresenceSpec.Tick(old(peers)[index], nowMs, Draw(randomState)).1)
    {
      hide NextRandom, Draw, Interval;
      var peer := peers[index];
      if peer.awaitingPong {
        if nowMs < peer.retryAtMs {
          assert peers == peers[index := peers[index]];
          return;
        }
        if peer.attempts >= 3 {
          peer := peer.(awaitingPong := false);
          if peer.visible.state != Unknown {
            peer := peer.(visible := peer.visible.(state := Offline));
          }
          peer := peer.(visible := peer.visible.(rttMs := -1));
          peer := ScheduleOfflineProbe(peer, nowMs);
          peers := peers[index := peer];
          return;
        }
        actions := actions + [PeerAction(index, Action(Ping, peer.pendingNonce))];
        peers := peers[index := peer.(attempts := peer.attempts + 1, retryAtMs := nowMs + 2_000)];
        return;
      }
      if nowMs >= peer.nextProbeAtMs {
        EmitPing(index, nowMs);
      } else {
        assert peers == peers[index := peers[index]];
      }
    }

    method EmitPing(index: nat, nowMs: nat)
      requires Valid() && index < |peers|
      modifies this`peers, this`actions, this`randomState
      ensures Valid() && randomState == NextRandom(old(randomState))
      ensures peers == old(peers)[index := PresenceSpec.EmitPing(old(peers)[index], nowMs, Draw(randomState))]
      ensures actions == old(actions) + [PeerAction(index, Action(Ping, Draw(randomState)))]
    {
      hide NextRandom, Draw;
      randomState := NextRandom(randomState);
      var nonce := Draw(randomState);
      peers := peers[index := peers[index].(awaitingPong := true, pendingNonce := nonce, pingStartedAtMs := nowMs,
                                            attempts := 1, retryAtMs := nowMs + 1_000)];
      actions := actions + [PeerAction(index, Action(Ping, nonce))];
    }

    method ScheduleOfflineProbe(peer: PeerState, nowMs: nat) returns (scheduled: PeerState)
      requires Valid()
      modifies this`randomState
      ensures Valid() && randomState == NextRandom(old(randomState))
      ensures scheduled == PresenceSpec.ScheduleOfflineProbe(peer, nowMs, Draw(randomState))
    {
      var delay := RandomInterval(OFFLINE_PROBE_MINIMUM_MS, OFFLINE_PROBE_MAXIMUM_MS);
      scheduled := peer.(nextProbeAtMs := nowMs + delay);
    }

    method RandomInterval(minimumMs: nat, maximumMs: nat) returns (ms: nat)
      requires Valid() && minimumMs <= maximumMs
      modifies this`randomState
      ensures Valid() && randomState == NextRandom(old(randomState))
      ensures ms == Interval(Draw(randomState), minimumMs, maximumMs)
    {
      randomState := NextRandom(randomState);
      ms := minimumMs + Draw(randomState) % (maximumMs - minimumMs + 1);
    }

    method OnPacket(peerIndex: nat, packet: Packet, nowMs: nat) returns (response: Option<PeerAction>)
      requires Valid()
      modifies this`peers, this`randomState
      ensures Valid()
      ensures peerIndex >= |old(peers)| ==> response == None && peers == old(peers) && randomState == old(randomState)
      ensures peerIndex < |old(peers)| ==>
        && randomState == Drawn(old(randomState), PacketDraws(old(peers)[peerIndex], packet))
        && var (peer, replies) := PresenceSpec.OnPacket(old(peers)[peerIndex], packet, nowMs, Draw(randomState));
           && peers == old(peers)[peerIndex := peer]
           && response == if replies == [] then None else Some(PeerAction(peerIndex, replies[0]))
    {
      hide NextRandom, Draw, Interval, MarkOnline;
      if peerIndex >= |peers| {
        return None;
      }
      var peer := peers[peerIndex];
      if packet.kind == Ping {
        if peer.visible.remoteSessionId != packet.sessionId {
          peer := peer.(visible := peer.visible.(rttMs := -1));
        }
        peer := peer.(visible := peer.visible.(remoteSessionId := packet.sessionId));
        peer := MarkPeerOnline(peer, nowMs, true);
        if !peer.awaitingPong && peer.visible.rttMs < 0 {
          peer := peer.(nextProbeAtMs := nowMs);
        }
        peers := peers[peerIndex := peer];
        return Some(PeerAction(peerIndex, Action(Pong, packet.nonce)));
      }
      if packet.kind == Pong {
        if !peer.awaitingPong || packet.nonce != peer.pendingNonce {
          assert peers == peers[peerIndex := peers[peerIndex]];
          return None;
        }
        var rtt: int := if nowMs >= peer.pingStartedAtMs then nowMs - peer.pingStartedAtMs else -1;
        peer := peer.(visible := peer.visible.(remoteSessionId := packet.sessionId, rttMs := rtt));
        peer := MarkPeerOnline(peer, nowMs, false);
        peers := peers[peerIndex := peer];
        return None;
      }
      if peer.visible.remoteSessionId != 0 && peer.visible.remoteSessionId == packet.sessionId {
        peer := peer.(awaitingPong := false, visible := peer.visible.(state := Offline, rttMs := -1));
        peer := ScheduleOfflineProbe(peer, nowMs);
        peers := peers[peerIndex := peer];
      } else {
        assert peers == peers[peerIndex := peers[peerIndex]];
      }
      return None;
    }

    method MarkPeerOnline(peer: PeerState, nowMs: nat, preservePendingProbe: bool) returns (marked: PeerState)
      requires Valid()
      modifies this`randomState
      ensures Valid() && randomState == Drawn(old(randomState), !(preservePendingProbe && peer.awaitingPong))
      ensures marked == MarkOnline(peer, nowMs, preservePendingProbe, Draw(randomState))
    {
      marked := peer.(visible := peer.visible.(state := Online, lastSeenMs := nowMs));
      if preservePendingProbe && marked.awaitingPong {
        return;
      }
      var delay := RandomInterval(ONLINE_PROBE_MINIMUM_MS, ONLINE_PROBE_MAXIMUM_MS);
      marked := marked.(awaitingPong := false, attempts := 0, pendingNonce := 0, nextProbeAtMs := nowMs + delay);
    }

    method OnAudioPacket(peerIndex: nat, nowMs: nat)
      requires Valid()
      modifies this`peers, this`randomState
      ensures Valid()
      ensures peerIndex >= |old(peers)| ==> peers == old(peers) && randomState == old(randomState)
      ensures peerIndex < |old(peers)| ==>
        && randomState == Drawn(old(randomState), !old(peers)[peerIndex].awaitingPong)
        && peers == old(peers)[peerIndex := OnAudio(old(peers)[peerIndex], nowMs, Draw(randomState))]
    {
      if peerIndex < |peers| {
        var peer := MarkPeerOnline(peers[peerIndex], nowMs, true);
        peers := peers[peerIndex := peer];
      }
    }

    method Shutdown()
      modifies this`actions, this`started
      ensures !started
      ensures !old(started) ==> actions == []
      ensures old(started) ==> |actions| == |peers|
      ensures forall i :: 0 <= i < |actions| ==> actions[i] == PeerAction(i, Action(Goodbye, 0))
    {
      actions := [];
      if !started {
        return;
      }
      var index := 0;
      while index < |peers|
        invariant index == |actions| <= |peers|
        invariant forall i :: 0 <= i < index ==> actions[i] == PeerAction(i, Action(Goodbye, 0))
      {
        actions := actions + [PeerAction(index, Action(Goodbye, 0))];
        index := index + 1;
      }
      started := false;
    }

    function SnapshotOf(peerIndex: nat): Snapshot
      reads this`peers
    {
      if peerIndex < |peers| then peers[peerIndex].visible else INITIAL_PEER.visible
    }
  }
}
