/**
 Both trackers inside one node (src/core/application.cpp): presence feeds the peer-info
 exchange, and both feed the published latency.
 */
module NodeSpec {
  import opened Basics
  import P = PresenceSpec
  import I = PeerInfoSpec
  import PresenceRuns

  datatype Latency = Latency(incomingMs: real, outgoingMs: real)

  const NO_LATENCY := Latency(-1.0, -1.0)

  /** The sum as the program computes it, in 32-bit arithmetic. */
  function Sum32(a: nat, b: nat, c: nat): nat {
    (a + b + c) % 0x1_0000_0000
  }

  /** One direction: capture on one side, buffering and rendering on the other, half the round trip between. */
  function OneWay(sender: I.Profile, receiver: I.Profile, rttMs: int): real {
    if sender.captureToSendUs != 0 && receiver.receiveBufferUs != 0 && receiver.renderLatencyUs != 0 then
      Sum32(sender.captureToSendUs, receiver.receiveBufferUs, receiver.renderLatencyUs) as real / 1000.0 +
        rttMs as real / 2.0
    else -1.0
  }

  /** `None` for the local profile is the null pointer of the program. */
  function EstimateDirectionalLatency(local: Option<I.Profile>, remote: I.Profile, rttMs: int): Latency {
    if rttMs < 0 || local.None? then NO_LATENCY
    else Latency(OneWay(remote, local.value, rttMs), OneWay(local.value, remote, rttMs))
  }

  function LocalProfile(info: I.PeerState): Option<I.Profile> {
    if info.localValid then Some(info.local) else None
  }

  /** The peer-info state after a synchronization with what presence shows. */
  function Synchronized(visible: P.Snapshot, info: I.PeerState, localReady: bool, profile: I.Profile,
                        localSessionId: nat, nowMs: nat): I.PeerState {
    var present := I.UpdatePresence(info, visible.state, visible.remoteSessionId, nowMs);
    var announced := if localReady then I.SetLocalProfile(present, profile, nowMs) else present;
    I.Tick(announced, localSessionId, nowMs).0
  }

  function Published(visible: P.Snapshot, info: I.PeerState): Latency {
    if visible.state == Online && info.remote.valid then
      EstimateDirectionalLatency(LocalProfile(info), info.remote.remoteProfile, visible.rttMs)
    else NO_LATENCY
  }

  /** One peer of a node, and the latency last published for it. */
  datatype Peer = Peer(presence: P.PeerState, info: I.PeerState, latency: Latency)

  datatype Event =
    | Presence(event: PresenceRuns.Event)
    | InfoPacket(packet: I.Packet, nowMs: nat)
    | Synchronize(localReady: bool, profile: I.Profile, nowMs: nat)

  /** The receivers' checks let a packet through. */
  predicate Admitted(e: Event) {
    match e
    case Presence(Received(packet, _, _)) => P.ValidPacket(packet)
    case InfoPacket(packet, _) => I.ValidPacket(packet)
    case _ => true
  }

  function Step(p: Peer, localSessionId: nat, e: Event): Peer {
    match e
    case Presence(event) => p.(presence := PresenceRuns.Step(p.presence, event))
    case InfoPacket(packet, nowMs) =>
      var v := p.presence.visible;
      var present := I.UpdatePresence(p.info, v.state, v.remoteSessionId, nowMs);
      p.(info := I.OnPacket(present, localSessionId, packet, nowMs).0)
    case Synchronize(localReady, profile, nowMs) =>
      var info := Synchronized(p.presence.visible, p.info, localReady, profile, localSessionId, nowMs);
      p.(info := info, latency := Published(p.presence.visible, info))
  }

  function Run(startMs: nat, localSessionId: nat, events: seq<Event>): Peer {
    if events == [] then Peer(PresenceRuns.Started(startMs), I.INITIAL_PEER, NO_LATENCY)
    else Step(Run(startMs, localSessionId, events[..|events| - 1]), localSessionId, events[|events| - 1])
  }

  /** A known round-trip time comes from a known session; a stored profile from the session being talked to. */
  predicate Inv(p: Peer) {
    && (p.presence.visible.rttMs >= 0 ==> p.presence.visible.state == Online && p.presence.visible.remoteSessionId != 0)
    && Bound(p.info)
  }

  predicate Bound(info: I.PeerState) {
    info.remote.valid ==> info.online && info.remote.remoteSessionId == info.remoteSessionId != 0
  }

  lemma UpdateBinds(info: I.PeerState, state: PresenceState, remoteSessionId: nat, nowMs: nat)
    requires Bound(info)
    ensures var t := I.UpdatePresence(info, state, remoteSessionId, nowMs);
      && Bound(t) && (t.online <==> state == Online)
      && (t.online && remoteSessionId != 0 ==> t.remoteSessionId == remoteSessionId)
  {
  }

  lemma PacketBinds(info: I.PeerState, localSessionId: nat, packet: I.Packet, nowMs: nat)
    requires Bound(info) && packet.sessionId != 0
    ensures Bound(I.OnPacket(info, localSessionId, packet, nowMs).0)
  {
    hide I.ProfileFromPacket, I.InfoPacket;
  }

  /** Announcing and ticking leave the remote side of the state alone. */
  lemma AnnounceKeepsRemote(info: I.PeerState, localReady: bool, profile: I.Profile, localSessionId: nat, nowMs: nat)
    ensures var announced := if localReady then I.SetLocalProfile(info, profile, nowMs) else info;
      var t := I.Tick(announced, localSessionId, nowMs).0;
      t.remote == info.remote && t.online == info.online && t.remoteSessionId == info.remoteSessionId
  {
    hide I.InfoPacket;
  }

  lemma InfoKeeps(p: Peer, localSessionId: nat, packet: I.Packet, nowMs: nat)
    requires Inv(p) && I.ValidPacket(packet)
    ensures Inv(Step(p, localSessionId, InfoPacket(packet, nowMs)))
  {
    hide I.UpdatePresence, I.OnPacket, Bound;
    var v := p.presence.visible;
    UpdateBinds(p.info, v.state, v.remoteSessionId, nowMs);
    PacketBinds(I.UpdatePresence(p.info, v.state, v.remoteSessionId, nowMs), localSessionId, packet, nowMs);
  }

  lemma PresenceKeeps(p: Peer, localSessionId: nat, event: PresenceRuns.Event)
    requires Inv(p) && Admitted(Presence(event))
    ensures Inv(Step(p, localSessionId, Presence(event)))
  {
    hide P.Interval;
  }

  /** After a synchronization, a stored remote profile belongs to the session presence shows, if presence knows it. */
  lemma SynchronizeAligns(p: Peer, localSessionId: nat, localReady: bool, profile: I.Profile, nowMs: nat)
    requires Inv(p)
    ensures var t := Step(p, localSessionId, Synchronize(localReady, profile, nowMs));
      && Inv(t) && t.presence == p.presence
      && (t.info.remote.valid ==> t.presence.visible.state == Online)
      && (t.info.remote.valid && t.presence.visible.remoteSessionId != 0 ==>
            t.info.remote.remoteSessionId == t.presence.visible.remoteSessionId)
  {
    hide I.UpdatePresence, I.SetLocalProfile, I.Tick, Published;
    var v := p.presence.visible;
    UpdateBinds(p.info, v.state, v.remoteSessionId, nowMs);
    AnnounceKeepsRemote(I.UpdatePresence(p.info, v.state, v.remoteSessionId, nowMs),
                        localReady, profile, localSessionId, nowMs);
  }

  lemma {:induction false} RunKeeps(startMs: nat, localSessionId: nat, events: seq<Event>)
    requires forall i :: 0 <= i < |events| ==> Admitted(events[i])
    ensures Inv(Run(startMs, localSessionId, events))
  {
    if events != [] {
      var before, e := events[..|events| - 1], events[|events| - 1];
      RunKeeps(startMs, localSessionId, before);
      var p := Run(startMs, localSessionId, before);
      match e
      case Presence(event) => PresenceKeeps(p, localSessionId, event);
      case InfoPacket(packet, nowMs) => InfoKeeps(p, localSessionId, packet, nowMs);
      case Synchronize(localReady, profile, nowMs) => SynchronizeAligns(p, localSessionId, localReady, profile, nowMs);
    }
  }

  /**
   In every run, a latency published by a synchronization means: the peer is online, its
   round-trip time is known, its session is known, the stored remote profile belongs to exactly
   that session, and the latency is at least half the round trip.
   */
  lemma PublishedLatencyJustified(startMs: nat, localSessionId: nat, events: seq<Event>,
                                  localReady: bool, profile: I.Profile, nowMs: nat)
    requires forall i :: 0 <= i < |events| ==> Admitted(events[i])
    ensures var t := Step(Run(startMs, localSessionId, events), localSessionId,
                          Synchronize(localReady, profile, nowMs));
      var v := t.presence.visible;
      (t.latency.incomingMs >= 0.0 || t.latency.outgoingMs >= 0.0) ==>
        && v.state == Online && v.rttMs >= 0 && v.remoteSessionId != 0
        && t.info.remote.valid && t.info.remote.remoteSessionId == v.remoteSessionId && t.info.localValid
        && (t.latency.incomingMs >= 0.0 ==> t.latency.incomingMs >= v.rttMs as real / 2.0)
        && (t.latency.outgoingMs >= 0.0 ==> t.latency.outgoingMs >= v.rttMs as real / 2.0)
  {
    RunKeeps(startMs, localSessionId, events);
    SynchronizeAligns(Run(startMs, localSessionId, events), localSessionId, localReady, profile, nowMs);
    hide Run, Synchronized;
  }

  /** Does one direction have all it needs: presence, both profiles and the three components? */
  predicate Measurable(v: P.Snapshot, info: I.PeerState, captureUs: nat, bufferUs: nat, renderUs: nat) {
    v.state == Online && v.rttMs >= 0 && info.remote.valid && info.localValid
    && captureUs != 0 && bufferUs != 0 && renderUs != 0
  }

  /**
   A direction that can be measured is published as its three components in milliseconds plus half
   the round trip, exactly when they add up to less than 2^32 microseconds; otherwise one or two
   times 2^32 is missing. A direction that cannot be measured is published as -1.
   */
  predicate IsSum(latencyMs: real, measurable: bool, sumUs: nat, rttMs: int) {
    if !measurable then latencyMs == -1.0
    else
      && (latencyMs == sumUs as real / 1000.0 + rttMs as real / 2.0 <==> sumUs < 0x1_0000_0000)
      && exists wraps: nat :: wraps <= 2 && 0 <= sumUs - wraps * 0x1_0000_0000 < 0x1_0000_0000
           && latencyMs == (sumUs - wraps * 0x1_0000_0000) as real / 1000.0 + rttMs as real / 2.0
  }

  lemma OneWayIsSum(v: P.Snapshot, sender: I.Profile, receiver: I.Profile)
    requires sender.captureToSendUs != 0 && receiver.receiveBufferUs != 0 && receiver.renderLatencyUs != 0
    ensures IsSum(OneWay(sender, receiver, v.rttMs), true,
                  sender.captureToSendUs + receiver.receiveBufferUs + receiver.renderLatencyUs, v.rttMs)
  {
    var sum := sender.captureToSendUs + receiver.receiveBufferUs + receiver.renderLatencyUs;
    var wraps: nat := if sum < 0x1_0000_0000 then 0 else if sum < 0x2_0000_0000 then 1 else 2;
    assert sum % 0x1_0000_0000 == sum - wraps * 0x1_0000_0000;
  }

  /**
   Both published directions: incoming is the remote capture with the local buffer and rendering, outgoing the
   reverse.
   */
  lemma LatencyIsSum(v: P.Snapshot, info: I.PeerState)
    ensures var here, there := info.local, info.remote.remoteProfile;
      && IsSum(Published(v, info).incomingMs,
               Measurable(v, info, there.captureToSendUs, here.receiveBufferUs, here.renderLatencyUs),
               there.captureToSendUs + here.receiveBufferUs + here.renderLatencyUs, v.rttMs)
      && IsSum(Published(v, info).outgoingMs,
               Measurable(v, info, here.captureToSendUs, there.receiveBufferUs, there.renderLatencyUs),
               here.captureToSendUs + there.receiveBufferUs + there.renderLatencyUs, v.rttMs)
  {
    var here, there := info.local, info.remote.remoteProfile;
    if Measurable(v, info, there.captureToSendUs, here.receiveBufferUs, here.renderLatencyUs) {
      OneWayIsSum(v, there, here);
    }
    if Measurable(v, info, here.captureToSendUs, there.receiveBufferUs, there.renderLatencyUs) {
      OneWayIsSum(v, here, there);
    }
    hide IsSum;
    NotMeasured(v, info);
  }

  lemma NotMeasured(v: P.Snapshot, info: I.PeerState)
    ensures var here, there := info.local, info.remote.remoteProfile;
      && (!Measurable(v, info, there.captureToSendUs, here.receiveBufferUs, here.renderLatencyUs) ==>
            IsSum(Published(v, info).incomingMs, false,
                  there.captureToSendUs + here.receiveBufferUs + here.renderLatencyUs, v.rttMs))
      && (!Measurable(v, info, here.captureToSendUs, there.receiveBufferUs, there.renderLatencyUs) ==>
            IsSum(Published(v, info).outgoingMs, false,
                  here.captureToSendUs + there.receiveBufferUs + there.renderLatencyUs, v.rttMs))
  {
  }

  /** A synchronization follows presence and, once the own profile is ready, announces exactly that profile. */
  lemma SynchronizeAnnounces(p: Peer, localSessionId: nat, localReady: bool, profile: I.Profile, nowMs: nat)
    ensures var t := Step(p, localSessionId, Synchronize(localReady, profile, nowMs));
      && t.presence == p.presence && (t.info.online <==> p.presence.visible.state == Online)
      && (localReady ==> t.info.localValid && t.info.local == profile)
      && (!localReady ==> I.SameLocal(p.info, t.info))
      && t.latency == Published(p.presence.visible, t.info)
  {
    hide Published;
    var v := p.presence.visible;
    I.PresenceKeepsLocal(p.info, v.state, v.remoteSessionId, nowMs);
    var present := I.UpdatePresence(p.info, v.state, v.remoteSessionId, nowMs);
    assert present.online <==> v.state == Online;
    hide I.UpdatePresence;
    var announced := if localReady then I.SetLocalProfile(present, profile, nowMs) else present;
    I.TickKeepsLocal(announced, localSessionId, nowMs);
    AnnounceKeepsRemote(present, localReady, profile, localSessionId, nowMs);
    hide I.Tick;
  }

  /** The exact condition for an incoming latency: what a reader of the two profiles and the presence can check. */
  lemma IncomingIffKnown(v: P.Snapshot, info: I.PeerState)
    ensures Published(v, info).incomingMs >= 0.0 <==>
      && v.state == Online && v.rttMs >= 0 && info.remote.valid && info.localValid
      && info.remote.remoteProfile.captureToSendUs != 0
      && info.local.receiveBufferUs != 0 && info.local.renderLatencyUs != 0
  {
  }
}
