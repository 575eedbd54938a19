/**
 The INFO/ACK/REQUEST protocol of one peer (src/core/peer_info_tracker.cpp) as functions on
 the peer's state. `PeerInfoTracker.dfy` proves the class against them.
 */
module PeerInfoSpec {
  import opened Basics

  type U32 = x: int | 0 <= x < 0x1_0000_0000

  const MAXIMUM_REVISION: nat := 0xffff_ffff
  const MAXIMUM_COMPONENT_US: nat := 5_000_000

  datatype Profile = Profile(captureToSendUs: U32, renderLatencyUs: U32, packetDurationUs: U32, receiveBufferUs: U32)

  const NO_PROFILE := Profile(0, 0, 0, 0)

  datatype Kind = Info | Request | Ack

  datatype Flags = Flags(capture: bool, render: bool, duration: bool, buffer: bool)

  datatype Packet = Packet(
    kind: Kind, flags: Flags, sessionId: nat, revision: nat,
    captureToSendUs: U32, renderLatencyUs: U32, packetDurationUs: U32, receiveBufferUs: U32)

  const NO_FLAGS := Flags(false, false, false, false)

  function InfoPacket(sessionId: nat, revision: nat, profile: Profile): Packet {
    Packet(Info,
           Flags(profile.captureToSendUs != 0, profile.renderLatencyUs != 0,
                 profile.packetDurationUs != 0, profile.receiveBufferUs != 0),
           sessionId, revision,
           profile.captureToSendUs, profile.renderLatencyUs, profile.packetDurationUs, profile.receiveBufferUs)
  }

  function ControlPacket(kind: Kind, sessionId: nat, revision: nat): Packet {
    Packet(kind, NO_FLAGS, sessionId, revision, 0, 0, 0, 0)
  }

  function ProfileFromPacket(packet: Packet): Profile {
    Profile(if packet.flags.capture then packet.captureToSendUs else 0,
            if packet.flags.render then packet.renderLatencyUs else 0,
            if packet.flags.duration then packet.packetDurationUs else 0,
            if packet.flags.buffer then packet.receiveBufferUs else 0)
  }

  predicate ValidComponent(present: bool, value: U32) {
    if present then 0 < value <= MAXIMUM_COMPONENT_US else value == 0
  }

  /** What the receiver lets through (src/core/udp_peer_info_packet.cpp). */
  predicate ValidPacket(packet: Packet) {
    && packet.sessionId != 0 && packet.revision != 0
    && if packet.kind.Info? then
         && ValidComponent(packet.flags.capture, packet.captureToSendUs)
         && ValidComponent(packet.flags.render, packet.renderLatencyUs)
         && ValidComponent(packet.flags.duration, packet.packetDurationUs)
         && ValidComponent(packet.flags.buffer, packet.receiveBufferUs)
       else
         packet == ControlPacket(packet.kind, packet.sessionId, packet.revision)
  }

  predicate Sendable(profile: Profile) {
    && profile.captureToSendUs <= MAXIMUM_COMPONENT_US && profile.renderLatencyUs <= MAXIMUM_COMPONENT_US
    && profile.packetDurationUs <= MAXIMUM_COMPONENT_US && profile.receiveBufferUs <= MAXIMUM_COMPONENT_US
  }

  /** An INFO packet carries its profile exactly, and passes the receiver's check exactly when every component fits. */
  lemma InfoRoundTrip(sessionId: nat, revision: nat, profile: Profile)
    ensures ProfileFromPacket(InfoPacket(sessionId, revision, profile)) == profile
    ensures sessionId != 0 && revision != 0 ==>
      (ValidPacket(InfoPacket(sessionId, revision, profile)) <==> Sendable(profile))
    ensures var packet := InfoPacket(sessionId, revision, profile);
      && packet.kind.Info? && packet.sessionId == sessionId && packet.revision == revision
      && packet.captureToSendUs == profile.captureToSendUs && packet.renderLatencyUs == profile.renderLatencyUs
      && packet.packetDurationUs == profile.packetDurationUs && packet.receiveBufferUs == profile.receiveBufferUs
      && (packet.flags.capture <==> profile.captureToSendUs != 0)
      && (packet.flags.render <==> profile.renderLatencyUs != 0)
      && (packet.flags.duration <==> profile.packetDurationUs != 0)
      && (packet.flags.buffer <==> profile.receiveBufferUs != 0)
  {
  }

  datatype Snapshot = Snapshot(valid: bool, remoteSessionId: nat, remoteRevision: nat, remoteProfile: Profile)

  const NO_SNAPSHOT := Snapshot(false, 0, 0, NO_PROFILE)

  datatype PeerState = PeerState(
    online: bool, remoteSessionId: nat, remote: Snapshot,
    localValid: bool, local: Profile, localRevision: nat,
    infoAcked: bool, infoExhausted: bool, awaitingAck: bool, infoAttempts: nat, infoRetryAtMs: nat,
    requestAttempts: nat, requestAtMs: nat)

  const INITIAL_PEER := PeerState(false, 0, NO_SNAPSHOT, false, NO_PROFILE, 0, false, false, false, 0, 0, 0, 0)

  function ClearRemote(p: PeerState): PeerState {
    p.(remote := NO_SNAPSHOT, requestAttempts := 0, requestAtMs := 0)
  }

  function NextRevision(revision: nat): nat {
    if revision == MAXIMUM_REVISION then 1 else revision + 1
  }

  function SetLocalProfile(p: PeerState, profile: Profile, nowMs: nat): PeerState {
    if p.localValid && p.local == profile then p
    else
      p.(local := profile, localValid := true, localRevision := NextRevision(p.localRevision),
         awaitingAck := false, infoAttempts := 0, infoAcked := false, infoExhausted := false,
         infoRetryAtMs := if p.online then nowMs else p.infoRetryAtMs)
  }

  function UpdatePresence(p: PeerState, state: PresenceState, remoteSessionId: nat, nowMs: nat): PeerState {
    if state != Online then
      var c := if p.online || p.remote.valid then ClearRemote(p) else p;
      c.(online := false, remoteSessionId := 0, awaitingAck := false, infoAcked := false, infoExhausted := false)
    else
      var sessionChanged := remoteSessionId != 0 && remoteSessionId != p.remoteSessionId;
      var becameOnline := !p.online;
      var c := if sessionChanged then ClearRemote(p).(awaitingAck := false, infoAcked := false, infoExhausted := false)
               else p;
      var q := c.(online := true,
                  remoteSessionId := if remoteSessionId != 0 then remoteSessionId else c.remoteSessionId);
      if becameOnline || sessionChanged then
        var r := q.(requestAttempts := 0, requestAtMs := if q.remoteSessionId != 0 then nowMs + 1_000 else 0);
        if r.localValid then r.(awaitingAck := false, infoAttempts := 0, infoRetryAtMs := nowMs) else r
      else q
  }

  function QueueInfo(p: PeerState, nowMs: nat): PeerState {
    p.(awaitingAck := true, infoAttempts := p.infoAttempts + 1,
       infoRetryAtMs := if p.infoAttempts == 0 then nowMs + 1_000 else if p.infoAttempts == 1 then nowMs + 2_000 else 0)
  }

  function QueueRequest(p: PeerState, nowMs: nat): PeerState {
    p.(requestAttempts := p.requestAttempts + 1,
       requestAtMs := if p.requestAttempts == 0 then nowMs + 2_000
                      else if p.requestAttempts == 1 then nowMs + 5_000
                      else 0)
  }

  function CurrentInfo(p: PeerState, localSessionId: nat): Packet {
    InfoPacket(localSessionId, p.localRevision, p.local)
  }

  predicate InfoDue(p: PeerState, nowMs: nat) {
    p.localValid && !p.infoAcked && !p.infoExhausted && (!p.awaitingAck || nowMs >= p.infoRetryAtMs)
  }

  predicate RequestDue(p: PeerState, nowMs: nat) {
    !p.remote.valid && p.remoteSessionId != 0 && p.requestAtMs != 0 && nowMs >= p.requestAtMs && p.requestAttempts < 3
  }

  function Tick(p: PeerState, localSessionId: nat, nowMs: nat): (PeerState, seq<Packet>) {
    if !p.online then (p, [])
    else
      var sendInfo := InfoDue(p, nowMs) && (!p.awaitingAck || p.infoAttempts < 3);
      var q := if sendInfo then QueueInfo(p, nowMs)
               else if InfoDue(p, nowMs) then p.(awaitingAck := false, infoExhausted := true)
               else p;
      var infos := if sendInfo then [CurrentInfo(p, localSessionId)] else [];
      if RequestDue(q, nowMs) then (QueueRequest(q, nowMs), infos + [ControlPacket(Request, localSessionId, 1)])
      else (q, infos)
  }

  function OnPacket(p: PeerState, localSessionId: nat, packet: Packet, nowMs: nat): (PeerState, seq<Packet>) {
    if !p.online then (p, [])
    else
      match packet.kind
      case Info =>
        if p.remoteSessionId != 0 && packet.sessionId != p.remoteSessionId then (p, [])
        else
          var q := if p.remoteSessionId == 0 then p.(remoteSessionId := packet.sessionId) else p;
          if !q.remote.valid || packet.revision > q.remote.remoteRevision then
            (q.(remote := Snapshot(true, packet.sessionId, packet.revision, ProfileFromPacket(packet)),
                requestAttempts := 0, requestAtMs := 0),
             [ControlPacket(Ack, packet.sessionId, packet.revision)])
          else if packet.revision < q.remote.remoteRevision then (q, [])
          else (q, [ControlPacket(Ack, packet.sessionId, packet.revision)])
      case Ack =>
        if p.localValid && packet.sessionId == localSessionId && packet.revision == p.localRevision then
          (p.(awaitingAck := false, infoAttempts := 0, infoAcked := true, infoExhausted := false), [])
        else (p, [])
      case Request =>
        if packet.sessionId == p.remoteSessionId && p.localValid then
          var q := p.(infoAcked := false, infoExhausted := false, infoAttempts := 0);
          (QueueInfo(q, nowMs), [CurrentInfo(p, localSessionId)])
        else (p, [])
  }

  // ----- what an INFO does -----

  /** The receiver is open to INFO packets of a session. */
  predicate Listens(p: PeerState, sessionId: nat) {
    p.online && (p.remoteSessionId == 0 || p.remoteSessionId == sessionId)
  }

  /**
   An INFO is stored exactly when its session is listened to and its revision is newer than the
   stored one; it is acknowledged exactly when it is not older.
   */
  lemma InfoStoredIffNewer(p: PeerState, localSessionId: nat, packet: Packet, nowMs: nat)
    requires packet.kind.Info?
    ensures var (q, replies) := OnPacket(p, localSessionId, packet, nowMs);
      && (q.remote == if Listens(p, packet.sessionId) && (!p.remote.valid || packet.revision > p.remote.remoteRevision)
                      then Snapshot(true, packet.sessionId, packet.revision, ProfileFromPacket(packet)) else p.remote)
      && (replies == if Listens(p, packet.sessionId) && (!p.remote.valid || packet.revision >= p.remote.remoteRevision)
                     then [ControlPacket(Ack, packet.sessionId, packet.revision)] else [])
  {
  }

  /**
   After the last revision comes 1 again: whoever stores the last one ignores every INFO of the
   new profile, so it is neither stored nor acknowledged until the copy is lost.
   */
  lemma WrapIgnored(p: PeerState, profile: Profile, holder: PeerState, localSessionId: nat, holderSessionId: nat,
                    nowMs: nat)
    requires p.localValid && p.localRevision == MAXIMUM_REVISION && p.local != profile
    requires holder.remote.valid && holder.remote.remoteRevision == MAXIMUM_REVISION
    requires Listens(holder, localSessionId) && holder.remoteSessionId != 0
    ensures var info := CurrentInfo(SetLocalProfile(p, profile, nowMs), localSessionId);
      info.revision == 1 && OnPacket(holder, holderSessionId, info, nowMs) == (holder, [])
  {
    hide ProfileFromPacket;
  }

  /** Same announcement: the parts of the state that say what the node tells the other one. */
  predicate SameLocal(p: PeerState, q: PeerState) {
    q.localValid == p.localValid && q.local == p.local && q.localRevision == p.localRevision
  }

  lemma PresenceKeepsLocal(p: PeerState, state: PresenceState, remoteSessionId: nat, nowMs: nat)
    ensures var q := UpdatePresence(p, state, remoteSessionId, nowMs);
      && SameLocal(p, q)
      && (state == Online && (remoteSessionId == 0 || remoteSessionId == p.remoteSessionId) ==> q.remote == p.remote)
      && (q.remote == p.remote || !q.remote.valid)
  {
  }

  lemma TickKeepsLocal(p: PeerState, localSessionId: nat, nowMs: nat)
    ensures var q := Tick(p, localSessionId, nowMs).0; SameLocal(p, q) && q.remote == p.remote
  {
    hide InfoPacket;
  }

  lemma PacketKeepsLocal(p: PeerState, localSessionId: nat, packet: Packet, nowMs: nat)
    ensures var q := OnPacket(p, localSessionId, packet, nowMs).0;
      SameLocal(p, q) && (p.remote.valid ==> q.remote.valid) && (!packet.kind.Info? ==> q.remote == p.remote)
  {
    hide InfoPacket, ProfileFromPacket;
  }

  // ----- quiescence -----

  /** INFO packets that ticks alone can still send. */
  function InfoBudget(p: PeerState): nat {
    if !p.online || !p.localValid || p.infoAcked || p.infoExhausted then 0
    else if p.awaitingAck then (if p.infoAttempts < 3 then 3 - p.infoAttempts else 0)
    else if p.infoAttempts < 2 then 3 - p.infoAttempts else 1
  }

  /** REQUEST packets that ticks alone can still send. */
  function RequestBudget(p: PeerState): nat {
    if p.online && p.requestAttempts < 3 then 3 - p.requestAttempts else 0
  }

  function Count(packets: seq<Packet>, kind: Kind): nat {
    if packets == [] then 0 else (if packets[0].kind == kind then 1 else 0) + Count(packets[1..], kind)
  }

  lemma {:induction false} CountConcat(a: seq<Packet>, b: seq<Packet>, kind: Kind)
    ensures Count(a + b, kind) == Count(a, kind) + Count(b, kind)
  {
    if a == [] {
      assert a + b == b;
    } else {
      assert (a + b)[1..] == a[1..] + b;
      CountConcat(a[1..], b, kind);
    }
  }

  lemma CountOne(packet: Packet)
    ensures forall kind :: Count([packet], kind) == if packet.kind == kind then 1 else 0
  {
    assert [packet][1..] == [];
  }

  /** What a run of ticks at any times sends. */
  function Ticks(p: PeerState, localSessionId: nat, times: seq<nat>): (PeerState, seq<Packet>)
    decreases |times|
  {
    if times == [] then (p, [])
    else
      var (q, sent) := Tick(p, localSessionId, times[0]);
      var (r, more) := Ticks(q, localSessionId, times[1..]);
      (r, sent + more)
  }

  lemma TickSpends(p: PeerState, localSessionId: nat, nowMs: nat)
    ensures var (q, sent) := Tick(p, localSessionId, nowMs);
      && Count(sent, Info) + InfoBudget(q) <= InfoBudget(p)
      && Count(sent, Request) + RequestBudget(q) <= RequestBudget(p)
      && Count(sent, Ack) == 0
  {
    var sent := Tick(p, localSessionId, nowMs).1;
    var n := if p.online && InfoDue(p, nowMs) && (!p.awaitingAck || p.infoAttempts < 3) then 1 else 0;
    var infos, requests := sent[..n], sent[n..];
    assert sent == infos + requests;
    assert infos == if n == 1 then [CurrentInfo(p, localSessionId)] else [];
    assert requests == [] || requests == [ControlPacket(Request, localSessionId, 1)];
    CountOne(CurrentInfo(p, localSessionId));
    CountOne(ControlPacket(Request, localSessionId, 1));
    CountConcat(infos, requests, Info);
    CountConcat(infos, requests, Request);
    CountConcat(infos, requests, Ack);
  }

  /** Until something else happens, any number of ticks sends at most three INFO and three REQUEST, and no ACK. */
  lemma {:induction false} TicksBounded(p: PeerState, localSessionId: nat, times: seq<nat>)
    ensures var (q, sent) := Ticks(p, localSessionId, times);
      && Count(sent, Info) + InfoBudget(q) <= InfoBudget(p) <= 3
      && Count(sent, Request) + RequestBudget(q) <= RequestBudget(p) <= 3
      && Count(sent, Ack) == 0
    decreases |times|
  {
    if times != [] {
      var (q, sent) := Tick(p, localSessionId, times[0]);
      var (r, more) := Ticks(q, localSessionId, times[1..]);
      TickSpends(p, localSessionId, times[0]);
      TicksBounded(q, localSessionId, times[1..]);
      CountConcat(sent, more, Info);
      CountConcat(sent, more, Request);
      CountConcat(sent, more, Ack);
    }
  }

  function Rank(kind: Kind): (rank: nat)
    ensures rank > 0
  {
    match kind
    case Ack => 1
    case Info => 2
    case Request => 3
  }

  /** Every packet causes at most one reply, of strictly lower rank. */
  lemma ReplyRanksLower(p: PeerState, localSessionId: nat, packet: Packet, nowMs: nat)
    ensures var replies := OnPacket(p, localSessionId, packet, nowMs).1;
      |replies| <= 1 && forall i :: 0 <= i < |replies| ==> Rank(replies[i].kind) < Rank(packet.kind)
  {
  }

  datatype InFlight = InFlight(toLeft: bool, packet: Packet)

  /** Two peers and the packets between them, with neither ticks nor duplication. */
  datatype Exchange = Exchange(left: PeerState, right: PeerState, leftSession: nat, rightSession: nat,
                               flying: seq<InFlight>)

  /** Delivers one packet in flight, of any position, at any time. */
  function Deliver(x: Exchange, i: nat, nowMs: nat): Exchange
    requires i < |x.flying|
  {
    var m := x.flying[i];
    var rest := x.flying[..i] + x.flying[i + 1..];
    var (peer, replies) := OnPacket(if m.toLeft then x.left else x.right,
                                    if m.toLeft then x.leftSession else x.rightSession, m.packet, nowMs);
    var sent := seq(|replies|, j requires 0 <= j < |replies| => InFlight(!m.toLeft, replies[j]));
    if m.toLeft then x.(left := peer, flying := rest + sent) else x.(right := peer, flying := rest + sent)
  }

  function TotalRank(flying: seq<InFlight>): nat {
    if flying == [] then 0 else Rank(flying[0].packet.kind) + TotalRank(flying[1..])
  }

  lemma {:induction false} TotalRankConcat(a: seq<InFlight>, b: seq<InFlight>)
    ensures TotalRank(a + b) == TotalRank(a) + TotalRank(b)
  {
    if a == [] {
      assert a + b == b;
    } else {
      assert (a + b)[1..] == a[1..] + b;
      TotalRankConcat(a[1..], b);
    }
  }

  /** Taking one packet out of the air lowers the total by its rank. */
  lemma TotalRankWithout(flying: seq<InFlight>, i: nat)
    requires i < |flying|
    ensures TotalRank(flying[..i] + flying[i + 1..]) + Rank(flying[i].packet.kind) == TotalRank(flying)
  {
    hide Rank;
    var first, last := flying[..i], flying[i..];
    assert flying == first + last && last[1..] == flying[i + 1..];
    TotalRankConcat(first, last);
    TotalRankConcat(first, flying[i + 1..]);
  }

  lemma DeliverDrains(x: Exchange, i: nat, nowMs: nat)
    requires i < |x.flying|
    ensures TotalRank(Deliver(x, i, nowMs).flying) < TotalRank(x.flying)
  {
    hide OnPacket, Rank;
    var m := x.flying[i];
    var rest := x.flying[..i] + x.flying[i + 1..];
    var peer, session := if m.toLeft then x.left else x.right, if m.toLeft then x.leftSession else x.rightSession;
    ReplyRanksLower(peer, session, m.packet, nowMs);
    var replies := OnPacket(peer, session, m.packet, nowMs).1;
    var sent := seq(|replies|, j requires 0 <= j < |replies| => InFlight(!m.toLeft, replies[j]));
    assert Deliver(x, i, nowMs).flying == rest + sent;
    TotalRankConcat(rest, sent);
    TotalRankWithout(x.flying, i);
    if sent != [] {
      assert sent[1..] == [];
    }
  }

  /** A delivery of any packet in flight at each step. */
  predicate Schedule(x: Exchange, steps: seq<(nat, nat)>)
    decreases |steps|
  {
    steps == [] || (steps[0].0 < |x.flying| && Schedule(Deliver(x, steps[0].0, steps[0].1), steps[1..]))
  }

  /** Left alone, an exchange dies out: no schedule delivers more packets than the total rank in flight. */
  lemma {:induction false} ExchangeTerminates(x: Exchange, steps: seq<(nat, nat)>)
    requires Schedule(x, steps)
    ensures |steps| <= TotalRank(x.flying)
    decreases |steps|
  {
    if steps != [] {
      DeliverDrains(x, steps[0].0, steps[0].1);
      ExchangeTerminates(Deliver(x, steps[0].0, steps[0].1), steps[1..]);
    }
  }
}
