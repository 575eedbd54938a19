/** The tracker object over all peers (src/core/peer_info_tracker.cpp). */
module PeerInfoTrackers {
  import opened Basics
  import opened PeerInfoSpec

  datatype Action = Action(peerIndex: nat, packet: Packet)

  function ActionsFor(index: nat, packets: seq<Packet>): seq<Action> {
    seq(|packets|, i requires 0 <= i < |packets| => Action(index, packets[i]))
  }

  /** All peers after a tick, and the packets of peers `0..n` in index order. */
  function TickPeers(peers: seq<PeerState>, localSessionId: nat, nowMs: nat): seq<PeerState> {
    seq(|peers|, i requires 0 <= i < |peers| => Tick(peers[i], localSessionId, nowMs).0)
  }

  function TickActions(peers: seq<PeerState>, localSessionId: nat, nowMs: nat, n: nat): seq<Action>
    requires n <= |peers|
  {
    if n == 0 then []
    else
      var (_, packets) := Tick(peers[n - 1], localSessionId, nowMs);
      TickActions(peers, localSessionId, nowMs, n - 1) + ActionsFor(n - 1, packets)
  }

  class PeerInfoTracker {
    var peers: seq<PeerState>
    var actions: seq<Action>
    const localSessionId: nat

    constructor (peerCount: nat, localSessionId: nat)
      ensures peers == seq(peerCount, _ => INITIAL_PEER) && actions == []
      ensures this.localSessionId == (if localSessionId == 0 then 1 else localSessionId)
    {
      peers, actions := seq(peerCount, _ => INITIAL_PEER), [];
      this.localSessionId := if localSessionId == 0 then 1 else localSessionId;
    }

    method SetLocalProfile(peerIndex: nat, profile: Profile, nowMs: nat)
      modifies this`peers
      ensures peers == if peerIndex >= |old(peers)| then old(peers)
                       else old(peers)[peerIndex := PeerInfoSpec.SetLocalProfile(old(peers)[peerIndex], profile, nowMs)]
    {
      if peerIndex >= |peers| {
        return;
      }
      var peer := peers[peerIndex];
      if peer.localValid && peer.local == profile {
        return;
      }
      peer := peer.(local := profile, localValid := true);
      peer := peer.(localRevision := if peer.localRevision == MAXIMUM_REVISION then 1 else peer.localRevision + 1);
      peer := peer.(awaitingAck := false, infoAttempts := 0, infoAcked := false, infoExhausted := false);
      if peer.online {
        peer := peer.(infoRetryAtMs := nowMs);
      }
      peers := peers[peerIndex := peer];
    }

    method UpdatePresence(peerIndex: nat, state: PresenceState, remoteSessionId: nat, nowMs: nat)
      modifies this`peers
      ensures peers == if peerIndex >= |old(peers)| then old(peers)
                       else
                         var peer := PeerInfoSpec.UpdatePresence(old(peers)[peerIndex], state, remoteSessionId, nowMs);
                         old(peers)[peerIndex := peer]
    {
      if peerIndex >= |peers| {
        return;
      }
      var peer := peers[peerIndex];
      if state != Online {
        if peer.online || peer.remote.valid {
          peer := ClearRemote(peer);
        }
        peer := peer.(online := false, remoteSessionId := 0);
        peer := peer.(awaitingAck := false, infoAcked := false, infoExhausted := false);
        peers := peers[peerIndex := peer];
        return;
      }
      var sessionChanged := remoteSessionId != 0 && remoteSessionId != peer.remoteSessionId;
      var becameOnline := !peer.online;
      if sessionChanged {
        peer := ClearRemote(peer);
        peer := peer.(awaitingAck := false, infoAcked := false, infoExhausted := false);
      }
      peer := peer.(online := true);
      if remoteSessionId != 0 {
        peer := peer.(remoteSessionId := remoteSessionId);
      }
      if becameOnline || sessionChanged {
        peer := peer.(requestAttempts := 0);
        peer := peer.(requestAtMs := if peer.remoteSessionId != 0 then nowMs + 1_000 else 0);
        if peer.localValid {
          peer := peer.(awaitingAck := false, infoAttempts := 0, infoRetryAtMs := nowMs);
        }
      }
      peers := peers[peerIndex := peer];
    }

    method Tick(nowMs: nat)
      modifies this`peers, this`actions
      ensures peers == TickPeers(old(peers), localSessionId, nowMs)
      ensures actions == TickActions(old(peers), localSessionId, nowMs, |old(peers)|)
    {
      actions := [];
      var index := 0;
      while index < |peers|
        invariant index <= |peers| == |old(peers)|
        invariant forall i :: 0 <= i < |peers| ==>
          peers[i] == if i < index then PeerInfoSpec.Tick(old(peers)[i], localSessionId, nowMs).0 else old(peers)[i]
        invariant actions == TickActions(old(peers), localSessionId, nowMs, index)
      {
        ghost var sent := actions;
        TickPeer(index, nowMs);
        assert actions == sent + ActionsFor(index, PeerInfoSpec.Tick(old(peers)[index], localSessionId, nowMs).1);
        index := index + 1;
      }
      assert peers == TickPeers(old(peers), localSessionId, nowMs);
    }

    /** The loop body of `Tick`. */
    method TickPeer(index: nat, nowMs: nat)
      requires index < |peers|
      modifies this`peers, this`actions
      ensures peers == old(peers)[index := PeerInfoSpec.Tick(old(peers)[index], localSessionId, nowMs).0]
      ensures actions == old(actions) + ActionsFor(index, PeerInfoSpec.Tick(old(peers)[index], localSessionId, nowMs).1)
    {
      if !peers[index].online {
        assert peers == peers[index := peers[index]];
        return;
      }
      var peer := peers[index];
      if peer.localValid && !peer.infoAcked && !peer.infoExhausted &&
         (!peer.awaitingAck || nowMs >= peer.infoRetryAtMs) {
        if !peer.awaitingAck || peer.infoAttempts < 3 {
          QueueInfo(index, nowMs);
        } else {
          peers := peers[index := peer.(awaitingAck := false, infoExhausted := true)];
        }
      }
      peer := peers[index];
      if !peer.remote.valid && peer.remoteSessionId != 0 && peer.requestAtMs != 0 && nowMs >= peer.requestAtMs &&
         peer.requestAttempts < 3 {
        QueueRequest(index, nowMs);
      }
    }

    method OnPacket(peerIndex: nat, packet: Packet, nowMs: nat)
      modifies this`peers, this`actions
      ensures peerIndex >= |old(peers)| ==> peers == old(peers) && actions == []
      ensures peerIndex < |old(peers)| ==>
        var (peer, replies) := PeerInfoSpec.OnPacket(old(peers)[peerIndex], localSessionId, packet, nowMs);
        peers == old(peers)[peerIndex := peer] && actions == ActionsFor(peerIndex, replies)
    {
      actions := [];
      if peerIndex >= |peers| {
        return;
      }
      var peer := peers[peerIndex];
      if !peer.online {
        return;
      }
      if packet.kind == Info {
        if peer.remoteSessionId != 0 && packet.sessionId != peer.remoteSessionId {
          return;
        }
        if peer.remoteSessionId == 0 {
          peer := peer.(remoteSessionId := packet.sessionId);
        }
        if !peer.remote.valid || packet.revision > peer.remote.remoteRevision {
          peer := peer.(remote := Snapshot(true, packet.sessionId, packet.revision, ProfileFromPacket(packet)),
                        requestAttempts := 0, requestAtMs := 0);
        } else if packet.revision < peer.remote.remoteRevision {
          peers := peers[peerIndex := peer];
          return;
        }
        peers := peers[peerIndex := peer];
        actions := actions + [Action(peerIndex, ControlPacket(Ack, packet.sessionId, packet.revision))];
        return;
      }
      if packet.kind == Ack {
        if peer.localValid && packet.sessionId == localSessionId && packet.revision == peer.localRevision {
          peer := peer.(awaitingAck := false, infoAttempts := 0, infoAcked := true, infoExhausted := false);
          peers := peers[peerIndex := peer];
        }
        return;
      }
      if packet.sessionId == peer.remoteSessionId && peer.localValid {
        peers := peers[peerIndex := peer.(infoAcked := false, infoExhausted := false, infoAttempts := 0)];
        QueueInfo(peerIndex, nowMs);
      }
    }

    method QueueInfo(index: nat, nowMs: nat)
      requires index < |peers|
      modifies this`peers, this`actions
      ensures peers == old(peers)[index := PeerInfoSpec.QueueInfo(old(peers)[index], nowMs)]
      ensures actions == old(actions) + [Action(index, CurrentInfo(old(peers)[index], localSessionId))]
    {
      var peer := peers[index];
      actions := actions + [Action(index, InfoPacket(localSessionId, peer.localRevision, peer.local))];
      peer := peer.(awaitingAck := true, infoAttempts := peer.infoAttempts + 1);
      if peer.infoAttempts == 1 {
        peer := peer.(infoRetryAtMs := nowMs + 1_000);
      } else if peer.infoAttempts == 2 {
        peer := peer.(infoRetryAtMs := nowMs + 2_000);
      } else {
        peer := peer.(infoRetryAtMs := 0);
      }
      peers := peers[index := peer];
    }

    method QueueRequest(index: nat, nowMs: nat)
      requires index < |peers|
      modifies this`peers, this`actions
      ensures peers == old(peers)[index := PeerInfoSpec.QueueRequest(old(peers)[index], nowMs)]
      ensures actions == old(actions) + [Action(index, ControlPacket(Request, localSessionId, 1))]
    {
      var peer := peers[index];
      actions := actions + [Action(index, ControlPacket(Request, localSessionId, 1))];
      peer := peer.(requestAttempts := peer.requestAttempts + 1);
      if peer.requestAttempts == 1 {
        peer := peer.(requestAtMs := nowMs + 2_000);
      } else if peer.requestAttempts == 2 {
        peer := peer.(requestAtMs := nowMs + 5_000);
      } else {
        peer := peer.(requestAtMs := 0);
      }
      peers := peers[index := peer];
    }

    function SnapshotOf(peerIndex: nat): Snapshot
      reads this`peers
    {
      if peerIndex < |peers| then peers[peerIndex].remote else NO_SNAPSHOT
    }
  }
}
