/**
 The part of the room receiver that keeps both trackers and the published latencies in step
 (src/core/application.cpp).
 */
module RoomReceivers {
  import opened Basics
  import P = PresenceSpec
  import I = PeerInfoSpec
  import opened NodeSpec
  import PresenceRuns
  import opened PresenceTrackers
  import opened PeerInfoTrackers

  /** The local profile of one peer; its buffer in microseconds wraps at 32 bits. */
  function Profiles(captureToSendUs: I.U32, renderLatencyUs: I.U32, packetDurationUs: I.U32,
                    receiveBufferMs: nat): (profile: I.Profile)
    ensures profile.captureToSendUs == captureToSendUs && profile.renderLatencyUs == renderLatencyUs
    ensures profile.packetDurationUs == packetDurationUs
    ensures receiveBufferMs <= 4_294_967 ==> profile.receiveBufferUs == 1_000 * receiveBufferMs
  {
    I.Profile(captureToSendUs, renderLatencyUs, packetDurationUs, receiveBufferMs * 1_000 % 0x1_0000_0000)
  }

  class RoomReceiver {
    const presence: PresenceTracker
    const peerInfo: PeerInfoTracker
    const receiveBufferMs: seq<nat>
    var latencies: seq<Latency>

    predicate Sized()
      reads this, presence, peerInfo
    {
      |presence.peers| == |receiveBufferMs| && |peerInfo.peers| == |receiveBufferMs| && |latencies| == |receiveBufferMs|
    }

    constructor (receiveBufferMs: seq<nat>, session: bv64, randomSeed: bv64)
      ensures Sized() && fresh(presence) && fresh(peerInfo) && this.receiveBufferMs == receiveBufferMs
      ensures forall i :: 0 <= i < |receiveBufferMs| ==>
        Peer(presence.peers[i], peerInfo.peers[i], latencies[i]) == Peer(P.INITIAL_PEER, I.INITIAL_PEER, NO_LATENCY)
    {
      presence := new PresenceTracker(|receiveBufferMs|, session, randomSeed);
      peerInfo := new PeerInfoTracker(|receiveBufferMs|, P.Draw(session));
      this.receiveBufferMs := receiveBufferMs;
      latencies := seq(|receiveBufferMs|, _ => NO_LATENCY);
    }

    ghost function PeerAt(i: nat): Peer
      requires Sized() && i < |receiveBufferMs|
      reads this, presence, peerInfo
    {
      Peer(presence.peers[i], peerInfo.peers[i], latencies[i])
    }

    /** Synchronizes every peer; presence is only read. */
    method SynchronizePeerInfo(localReady: bool, captureToSendUs: I.U32, renderLatencyUs: I.U32,
                               packetDurationUs: I.U32, nowMs: nat)
      requires Sized()
      modifies this`latencies, peerInfo
      ensures Sized()
      ensures forall i :: 0 <= i < |receiveBufferMs| ==>
        PeerAt(i) == NodeSpec.Step(old(PeerAt(i)), peerInfo.localSessionId,
          Synchronize(localReady, Profiles(captureToSendUs, renderLatencyUs, packetDurationUs, receiveBufferMs[i]),
                      nowMs))
    {
      hide I.UpdatePresence, I.SetLocalProfile, I.Tick, Published, Profiles;
      var index := 0;
      while index < |receiveBufferMs|
        invariant index <= |receiveBufferMs| && Sized() && latencies == old(latencies)
        invariant forall i :: 0 <= i < |receiveBufferMs| ==>
          peerInfo.peers[i] ==
            if i < index then Announced(presence.peers[i].visible, old(peerInfo.peers)[i], localReady,
                                        Profiles(captureToSendUs, renderLatencyUs, packetDurationUs,
                                                 receiveBufferMs[i]), nowMs)
            else old(peerInfo.peers)[i]
      {
        var visible := presence.SnapshotOf(index);
        peerInfo.UpdatePresence(index, visible.state, visible.remoteSessionId, nowMs);
        if localReady {
          peerInfo.SetLocalProfile(index,
            Profiles(captureToSendUs, renderLatencyUs, packetDurationUs, receiveBufferMs[index]), nowMs);
        }
        index := index + 1;
      }
      peerInfo.Tick(nowMs);
      Publish();
    }

    /** The second loop: publishes the latency of every peer. */
    method Publish()
      requires Sized()
      modifies this`latencies
      ensures Sized()
      ensures forall i :: 0 <= i < |receiveBufferMs| ==>
        latencies[i] == Published(presence.peers[i].visible, peerInfo.peers[i])
    {
      var index := 0;
      while index < |receiveBufferMs|
        invariant index <= |receiveBufferMs| && Sized()
        invariant forall i :: 0 <= i < index ==> latencies[i] == Published(presence.peers[i].visible, peerInfo.peers[i])
      {
        var visible := presence.SnapshotOf(index);
        var remote := peerInfo.SnapshotOf(index);
        var estimate := NO_LATENCY;
        if visible.state == Online && remote.valid {
          estimate := EstimateDirectionalLatency(LocalProfile(peerInfo.peers[index]), remote.remoteProfile,
                                                 visible.rttMs);
        }
        latencies := latencies[index := estimate];
        index := index + 1;
      }
    }

    /** A presence packet is followed at once by a synchronization of all peers. */
    method OnPresencePacket(index: nat, packet: P.Packet, localReady: bool, captureToSendUs: I.U32,
                            renderLatencyUs: I.U32, packetDurationUs: I.U32, nowMs: nat)
      returns (response: Option<PeerAction>)
      requires Sized() && presence.Valid() && index < |receiveBufferMs|
      modifies this`latencies, peerInfo, presence
      ensures Sized() && presence.Valid()
      ensures forall i :: 0 <= i < |receiveBufferMs| ==>
        var received := PresenceRuns.Received(packet, nowMs, P.Draw(presence.randomState));
        var heard := if i == index then NodeSpec.Step(old(PeerAt(i)), peerInfo.localSessionId, Presence(received))
          else old(PeerAt(i));
        PeerAt(i) == NodeSpec.Step(heard, peerInfo.localSessionId,
          Synchronize(localReady, Profiles(captureToSendUs, renderLatencyUs, packetDurationUs, receiveBufferMs[i]),
                      nowMs))
    {
      hide P.OnPacket, P.Draw, Synchronized, Published, Profiles;
      response := presence.OnPacket(index, packet, nowMs);
      SynchronizePeerInfo(localReady, captureToSendUs, renderLatencyUs, packetDurationUs, nowMs);
    }

    /** A peer-info packet is judged against the presence of the moment. */
    method OnPeerInfoPacket(index: nat, packet: I.Packet, nowMs: nat)
      requires Sized() && index < |receiveBufferMs|
      modifies peerInfo
      ensures Sized()
      ensures forall i :: 0 <= i < |receiveBufferMs| ==>
        PeerAt(i) ==
          if i == index then NodeSpec.Step(old(PeerAt(i)), peerInfo.localSessionId, InfoPacket(packet, nowMs))
          else old(PeerAt(i))
    {
      hide I.UpdatePresence, I.OnPacket;
      var visible := presence.SnapshotOf(index);
      peerInfo.UpdatePresence(index, visible.state, visible.remoteSessionId, nowMs);
      peerInfo.OnPacket(index, packet, nowMs);
    }
  }

  function Announced(visible: P.Snapshot, info: I.PeerState, localReady: bool, profile: I.Profile,
                     nowMs: nat): I.PeerState {
    var present := I.UpdatePresence(info, visible.state, visible.remoteSessionId, nowMs);
    if localReady then I.SetLocalProfile(present, profile, nowMs) else present
  }
}
