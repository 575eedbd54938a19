/**
 What one peer of the peer-info protocol sends and when, said over runs of ticks and literal
 times, and what each operation leaves of its state.
 */
module PeerInfoLaws {
  import opened Basics
  import opened PeerInfoSpec

  function OfKind(packets: seq<Packet>, kind: Kind): seq<Packet> {
    if packets == [] then []
    else if packets[0].kind == kind then [packets[0]] + OfKind(packets[1..], kind)
    else OfKind(packets[1..], kind)
  }

  lemma {:induction false} OfKindConcat(a: seq<Packet>, b: seq<Packet>, kind: Kind)
    ensures OfKind(a + b, kind) == OfKind(a, kind) + OfKind(b, kind)
  {
    if a == [] {
      assert a + b == b;
    } else {
      assert (a + b)[1..] == a[1..] + b;
      OfKindConcat(a[1..], b, kind);
    }
  }

  lemma OfKindOne(packet: Packet, kind: Kind)
    ensures OfKind([packet], kind) == if packet.kind == kind then [packet] else []
  {
    assert [packet][1..] == [];
  }

  /** The peer after ticks at these times. */
  function Later(p: PeerState, localSessionId: nat, times: seq<nat>): PeerState {
    Ticks(p, localSessionId, times).0
  }

  /** The packets of one kind that ticks at these times send. */
  function Sends(p: PeerState, localSessionId: nat, times: seq<nat>, kind: Kind): seq<Packet> {
    OfKind(Ticks(p, localSessionId, times).1, kind)
  }

  predicate AllBefore(times: seq<nat>, deadline: nat) {
    forall i :: 0 <= i < |times| ==> times[i] < deadline
  }

  // ----- single ticks -----

  lemma TickSends(p: PeerState, localSessionId: nat, nowMs: nat)
    requires p.online
    ensures var sent := Tick(p, localSessionId, nowMs).1;
      && OfKind(sent, Info) ==
         (if p.localValid && !p.infoAcked && !p.infoExhausted &&
             (!p.awaitingAck || (nowMs >= p.infoRetryAtMs && p.infoAttempts < 3))
          then [InfoPacket(localSessionId, p.localRevision, p.local)] else [])
      && OfKind(sent, Request) ==
         (if !p.remote.valid && p.remoteSessionId != 0 && p.requestAtMs != 0 && nowMs >= p.requestAtMs &&
             p.requestAttempts < 3
          then [ControlPacket(Request, localSessionId, 1)] else [])
  {
    var sent := Tick(p, localSessionId, nowMs).1;
    var n := if InfoDue(p, nowMs) && (!p.awaitingAck || p.infoAttempts < 3) then 1 else 0;
    var infos, requests := sent[..n], sent[n..];
    assert sent == infos + requests;
    assert infos == if n == 1 then [CurrentInfo(p, localSessionId)] else [];
    assert requests == [] || requests == [ControlPacket(Request, localSessionId, 1)];
    hide Tick, OfKind;
    TickSendsKind(infos, requests, CurrentInfo(p, localSessionId), ControlPacket(Request, localSessionId, 1));
  }

  lemma TickSendsKind(infos: seq<Packet>, requests: seq<Packet>, info: Packet, request: Packet)
    requires info.kind.Info? && request.kind.Request?
    requires infos == [] || infos == [info]
    requires requests == [] || requests == [request]
    ensures OfKind(infos + requests, Info) == infos && OfKind(infos + requests, Request) == requests
  {
    OfKindOne(info, Info);
    OfKindOne(info, Request);
    OfKindOne(request, Info);
    OfKindOne(request, Request);
    OfKindConcat(infos, requests, Info);
    OfKindConcat(infos, requests, Request);
    assert infos + [] == infos && [] + requests == requests;
  }

  lemma TicksStep(p: PeerState, localSessionId: nat, times: seq<nat>, kind: Kind)
    requires times != []
    ensures var q := Tick(p, localSessionId, times[0]).0;
      && Later(p, localSessionId, times) == Later(q, localSessionId, times[1..])
      && Sends(p, localSessionId, times, kind) ==
         OfKind(Tick(p, localSessionId, times[0]).1, kind) + Sends(q, localSessionId, times[1..], kind)
  {
    var (q, sent) := Tick(p, localSessionId, times[0]);
    hide Tick;
    OfKindConcat(sent, Ticks(q, localSessionId, times[1..]).1, kind);
  }

  lemma OneTick(p: PeerState, localSessionId: nat, nowMs: nat, kind: Kind)
    ensures Later(p, localSessionId, [nowMs]) == Tick(p, localSessionId, nowMs).0
    ensures Sends(p, localSessionId, [nowMs], kind) == OfKind(Tick(p, localSessionId, nowMs).1, kind)
  {
    hide Tick;
    TicksStep(p, localSessionId, [nowMs], kind);
    assert [nowMs][1..] == [];
  }

  // ----- the INFO schedule -----

  /** The parts of the state that the INFO schedule depends on. */
  predicate Announcing(p: PeerState, attempts: nat, retryAtMs: nat) {
    p.online && p.localValid && !p.infoAcked && !p.infoExhausted && p.awaitingAck
    && p.infoAttempts == attempts && p.infoRetryAtMs == retryAtMs
  }

  predicate SameAnnouncement(p: PeerState, q: PeerState) {
    q.online == p.online && SameLocal(p, q)
  }

  /** Before the retry time nothing is sent, however often it ticks. */
  lemma {:induction false} InfoWaits(p: PeerState, localSessionId: nat, times: seq<nat>, attempts: nat, retryAtMs: nat)
    requires Announcing(p, attempts, retryAtMs) && AllBefore(times, retryAtMs)
    ensures Sends(p, localSessionId, times, Info) == []
    ensures var q := Later(p, localSessionId, times); Announcing(q, attempts, retryAtMs) && SameAnnouncement(p, q)
    decreases |times|
  {
    if times != [] {
      TicksStep(p, localSessionId, times, Info);
      TickSends(p, localSessionId, times[0]);
      InfoWaits(Tick(p, localSessionId, times[0]).0, localSessionId, times[1..], attempts, retryAtMs);
    }
  }

  /** Nothing is ever sent again once the peer is acknowledged, has given up, or holds no profile. */
  predicate Silent(p: PeerState) {
    p.infoAcked || p.infoExhausted || !p.localValid || !p.online
    || (p.awaitingAck && p.infoAttempts >= 3)
  }

  lemma {:induction false} InfoSilent(p: PeerState, localSessionId: nat, times: seq<nat>)
    requires Silent(p)
    ensures Sends(p, localSessionId, times, Info) == []
    decreases |times|
  {
    if times != [] {
      TicksStep(p, localSessionId, times, Info);
      var q := Tick(p, localSessionId, times[0]).0;
      if p.online {
        TickSends(p, localSessionId, times[0]);
      }
      assert Silent(q);
      InfoSilent(q, localSessionId, times[1..]);
    }
  }

  lemma InfoRetries(p: PeerState, localSessionId: nat, attempts: nat, retryAtMs: nat, nowMs: nat)
    requires Announcing(p, attempts, retryAtMs) && 1 <= attempts < 3 && nowMs >= retryAtMs
    ensures Sends(p, localSessionId, [nowMs], Info) == [InfoPacket(localSessionId, p.localRevision, p.local)]
    ensures var q := Later(p, localSessionId, [nowMs]);
      SameAnnouncement(p, q) && (attempts == 1 ==> Announcing(q, 2, nowMs + 2_000)) && (attempts == 2 ==> Silent(q))
  {
    OneTick(p, localSessionId, nowMs, Info);
    TickSends(p, localSessionId, nowMs);
  }

  /**
   After an INFO sent at `sentMs` the next tick at least 1000 ms later sends it again, the next one
   at least 2000 ms after that sends it a third time, and no other tick ever sends it.
   */
  lemma InfoResent(p: PeerState, localSessionId: nat, sentMs: nat,
                   before1: seq<nat>, t1: nat, before2: seq<nat>, t2: nat, after: seq<nat>)
    requires Announcing(p, 1, sentMs + 1_000)
    requires AllBefore(before1, sentMs + 1_000) && t1 >= sentMs + 1_000
    requires AllBefore(before2, t1 + 2_000) && t2 >= t1 + 2_000
    ensures var info := InfoPacket(localSessionId, p.localRevision, p.local);
      var p1 := Later(p, localSessionId, before1);
      var p2 := Later(p1, localSessionId, [t1]);
      var p3 := Later(p2, localSessionId, before2);
      var p4 := Later(p3, localSessionId, [t2]);
      && Sends(p, localSessionId, before1, Info) == []
      && Sends(p1, localSessionId, [t1], Info) == [info]
      && Sends(p2, localSessionId, before2, Info) == []
      && Sends(p3, localSessionId, [t2], Info) == [info]
      && Sends(p4, localSessionId, after, Info) == []
  {
    hide Later, Sends, InfoPacket, Silent;
    InfoWaits(p, localSessionId, before1, 1, sentMs + 1_000);
    var p1 := Later(p, localSessionId, before1);
    InfoRetries(p1, localSessionId, 1, sentMs + 1_000, t1);
    var p2 := Later(p1, localSessionId, [t1]);
    InfoWaits(p2, localSessionId, before2, 2, t1 + 2_000);
    var p3 := Later(p2, localSessionId, before2);
    InfoRetries(p3, localSessionId, 2, t1 + 2_000, t2);
    InfoSilent(Later(p3, localSessionId, [t2]), localSessionId, after);
  }

  /** The peer has something new to say and has not said it yet. */
  predicate News(p: PeerState) {
    p.online && p.localValid && !p.infoAcked && !p.infoExhausted && !p.awaitingAck && p.infoAttempts == 0
  }

  /** The next tick, at any time, sends the INFO; its schedule follows `InfoResent`. */
  lemma NewsSent(p: PeerState, localSessionId: nat, t0: nat)
    requires News(p)
    ensures Sends(p, localSessionId, [t0], Info) == [InfoPacket(localSessionId, p.localRevision, p.local)]
    ensures var q := Later(p, localSessionId, [t0]); Announcing(q, 1, t0 + 1_000) && SameAnnouncement(p, q)
  {
    OneTick(p, localSessionId, t0, Info);
    TickSends(p, localSessionId, t0);
  }

  // ----- what brings news -----

  /** An offline peer counts nothing as acknowledged or given up; every operation keeps that. */
  predicate Quiet(p: PeerState) {
    !p.online ==> !p.infoAcked && !p.infoExhausted && !p.awaitingAck && p.remoteSessionId == 0 && !p.remote.valid
  }

  lemma QuietLocally(p: PeerState, profile: Profile, localSessionId: nat, nowMs: nat)
    requires Quiet(p)
    ensures Quiet(INITIAL_PEER) && Quiet(SetLocalProfile(p, profile, nowMs)) && Quiet(Tick(p, localSessionId, nowMs).0)
  {
    hide InfoPacket;
  }

  lemma QuietRemotely(p: PeerState, state: PresenceState, remoteSessionId: nat, localSessionId: nat, packet: Packet,
                      nowMs: nat)
    requires Quiet(p)
    ensures Quiet(UpdatePresence(p, state, remoteSessionId, nowMs))
    ensures Quiet(OnPacket(p, localSessionId, packet, nowMs).0)
  {
    hide InfoPacket, ProfileFromPacket;
  }

  /**
   A different profile gets the next revision and is news; the same one changes nothing; the remote side never
   changes.
   */
  lemma ProfileSet(p: PeerState, profile: Profile, nowMs: nat)
    ensures var q := SetLocalProfile(p, profile, nowMs);
      if p.localValid && p.local == profile then q == p
      else
        && q.localValid && q.local == profile
        && q.localRevision == (if p.localRevision == 0xffff_ffff then 1 else p.localRevision + 1)
        && !q.infoAcked && (q.online ==> News(q))
        && q.online == p.online && q.remoteSessionId == p.remoteSessionId && q.remote == p.remote
        && q.requestAttempts == p.requestAttempts && q.requestAtMs == p.requestAtMs
  {
  }

  /** Coming online or meeting a new session forgets the old remote profile and makes the own profile news. */
  lemma PeerArrives(p: PeerState, remoteSessionId: nat, nowMs: nat)
    requires Quiet(p)
    requires !p.online || (remoteSessionId != 0 && remoteSessionId != p.remoteSessionId)
    ensures var q := UpdatePresence(p, Online, remoteSessionId, nowMs);
      && q.online && q.remoteSessionId == remoteSessionId && !q.remote.valid
      && (p.localValid ==> News(q)) && SameLocal(p, q)
      && q.requestAttempts == 0 && q.requestAtMs == (if remoteSessionId != 0 then nowMs + 1_000 else 0)
  {
  }

  /** The session already known, or none, changes nothing for a peer that is online. */
  lemma PeerStays(p: PeerState, remoteSessionId: nat, nowMs: nat)
    requires p.online && (remoteSessionId == 0 || remoteSessionId == p.remoteSessionId)
    ensures UpdatePresence(p, Online, remoteSessionId, nowMs) == p
  {
  }

  /** A peer that is not online holds no remote profile and neither ticks nor packets make it send anything. */
  lemma {:induction false} PeerGone(p: PeerState, state: PresenceState, remoteSessionId: nat, localSessionId: nat,
                                    nowMs: nat, times: seq<nat>, packet: Packet)
    requires state != Online && Quiet(p)
    ensures var q := UpdatePresence(p, state, remoteSessionId, nowMs);
      && !q.online && !q.remote.valid && q.remoteSessionId == 0 && !q.infoAcked && SameLocal(p, q)
      && Ticks(q, localSessionId, times) == (q, [])
      && OnPacket(q, localSessionId, packet, nowMs) == (q, [])
  {
    OfflineTicks(UpdatePresence(p, state, remoteSessionId, nowMs), localSessionId, times);
  }

  lemma {:induction false} OfflineTicks(p: PeerState, localSessionId: nat, times: seq<nat>)
    requires !p.online
    ensures Ticks(p, localSessionId, times) == (p, [])
    decreases |times|
  {
    if times != [] {
      var sent, more := Tick(p, localSessionId, times[0]).1, Ticks(p, localSessionId, times[1..]).1;
      OfflineTicks(p, localSessionId, times[1..]);
      assert sent + more == [];
    }
  }

  /**
   The exact INFO schedule: after a new profile of an online peer, a peer that came online or a
   new session, the next tick at `t0` sends the current INFO, then the first one at least 1000 ms
   later, then the first one at least 2000 ms after that, and no other tick does.
   */
  lemma InfoSchedule(p: PeerState, localSessionId: nat, t0: nat,
                     before1: seq<nat>, t1: nat, before2: seq<nat>, t2: nat, after: seq<nat>)
    requires News(p)
    requires AllBefore(before1, t0 + 1_000) && t1 >= t0 + 1_000
    requires AllBefore(before2, t1 + 2_000) && t2 >= t1 + 2_000
    ensures var info := InfoPacket(localSessionId, p.localRevision, p.local);
      var p0 := Later(p, localSessionId, [t0]);
      var p1 := Later(p0, localSessionId, before1);
      var p2 := Later(p1, localSessionId, [t1]);
      var p3 := Later(p2, localSessionId, before2);
      var p4 := Later(p3, localSessionId, [t2]);
      && Sends(p, localSessionId, [t0], Info) == [info]
      && Sends(p0, localSessionId, before1, Info) == []
      && Sends(p1, localSessionId, [t1], Info) == [info]
      && Sends(p2, localSessionId, before2, Info) == []
      && Sends(p3, localSessionId, [t2], Info) == [info]
      && Sends(p4, localSessionId, after, Info) == []
  {
    hide Later, Sends, InfoPacket;
    NewsSent(p, localSessionId, t0);
    InfoResent(Later(p, localSessionId, [t0]), localSessionId, t0, before1, t1, before2, t2, after);
  }

  // ----- packets -----

  /** An ACK for exactly the current announcement ends the schedule; any other one is ignored. */
  lemma AckEnds(p: PeerState, localSessionId: nat, packet: Packet, nowMs: nat, times: seq<nat>)
    requires packet.kind.Ack? && p.online
    ensures var (q, replies) := OnPacket(p, localSessionId, packet, nowMs);
      && replies == []
      && if p.localValid && packet.sessionId == localSessionId && packet.revision == p.localRevision
         then q.infoAcked && Sends(q, localSessionId, times, Info) == [] && SameLocal(p, q) && q.remote == p.remote
         else q == p
  {
    hide Sends;
    if p.localValid && packet.sessionId == localSessionId && packet.revision == p.localRevision {
      InfoSilent(OnPacket(p, localSessionId, packet, nowMs).0, localSessionId, times);
    }
  }

  /**
   A REQUEST of the session talked to is answered at once by the current INFO, resent like any other; else
   ignored.
   */
  lemma RequestAnswered(p: PeerState, localSessionId: nat, packet: Packet, nowMs: nat)
    requires packet.kind.Request? && p.online
    ensures var (q, replies) := OnPacket(p, localSessionId, packet, nowMs);
      if p.localValid && packet.sessionId == p.remoteSessionId
      then replies == [InfoPacket(localSessionId, p.localRevision, p.local)] && SameAnnouncement(p, q)
           && Announcing(q, 1, nowMs + 1_000) && q.remote == p.remote
      else q == p && replies == []
  {
  }

  // ----- the REQUEST schedule -----

  /** Asking for the remote profile, with `attempts` questions sent and the next one due. */
  predicate Asking(p: PeerState, attempts: nat, dueMs: nat) {
    p.online && p.remoteSessionId != 0 && !p.remote.valid && p.requestAttempts == attempts && p.requestAtMs == dueMs
  }

  lemma {:induction false} RequestWaits(p: PeerState, localSessionId: nat, times: seq<nat>, attempts: nat, dueMs: nat)
    requires Asking(p, attempts, dueMs) && AllBefore(times, dueMs)
    ensures Sends(p, localSessionId, times, Request) == []
    ensures Asking(Later(p, localSessionId, times), attempts, dueMs)
    decreases |times|
  {
    if times != [] {
      TicksStep(p, localSessionId, times, Request);
      TickSends(p, localSessionId, times[0]);
      RequestWaits(Tick(p, localSessionId, times[0]).0, localSessionId, times[1..], attempts, dueMs);
    }
  }

  /** No question is sent once the profile is stored, the session unknown or none is due. */
  predicate AsksNothing(p: PeerState) {
    !p.online || p.remote.valid || p.remoteSessionId == 0 || p.requestAtMs == 0
  }

  lemma {:induction false} RequestSilent(p: PeerState, localSessionId: nat, times: seq<nat>)
    requires AsksNothing(p)
    ensures Sends(p, localSessionId, times, Request) == []
    decreases |times|
  {
    if times != [] {
      TicksStep(p, localSessionId, times, Request);
      var q := Tick(p, localSessionId, times[0]).0;
      if p.online {
        TickSends(p, localSessionId, times[0]);
      }
      assert AsksNothing(q);
      RequestSilent(q, localSessionId, times[1..]);
    }
  }

  lemma RequestSent(p: PeerState, localSessionId: nat, attempts: nat, dueMs: nat, nowMs: nat)
    requires Asking(p, attempts, dueMs) && attempts < 3 && dueMs > 0 && nowMs >= dueMs
    ensures Sends(p, localSessionId, [nowMs], Request) == [ControlPacket(Request, localSessionId, 1)]
    ensures var q := Later(p, localSessionId, [nowMs]);
      && (attempts == 0 ==> Asking(q, 1, nowMs + 2_000)) && (attempts == 1 ==> Asking(q, 2, nowMs + 5_000))
      && (attempts == 2 ==> AsksNothing(q))
  {
    OneTick(p, localSessionId, nowMs, Request);
    TickSends(p, localSessionId, nowMs);
  }

  /**
   The exact REQUEST schedule after a peer came online or changed its session at `startMs` and
   while nothing valid is stored: the first tick at least 1000 ms later asks, then the first one
   at least 2000 ms after that, then the first one at least 5000 ms after that, and no other tick.
   */
  lemma RequestSchedule(p: PeerState, localSessionId: nat, remoteSessionId: nat, startMs: nat,
                        before0: seq<nat>, t0: nat, before1: seq<nat>, t1: nat, before2: seq<nat>, t2: nat,
                        after: seq<nat>)
    requires Quiet(p) && remoteSessionId != 0 && (!p.online || remoteSessionId != p.remoteSessionId)
    requires AllBefore(before0, startMs + 1_000) && t0 >= startMs + 1_000
    requires AllBefore(before1, t0 + 2_000) && t1 >= t0 + 2_000
    requires AllBefore(before2, t1 + 5_000) && t2 >= t1 + 5_000
    ensures var request := ControlPacket(Request, localSessionId, 1);
      var q := UpdatePresence(p, Online, remoteSessionId, startMs);
      var q0 := Later(q, localSessionId, before0);
      var q1 := Later(q0, localSessionId, [t0]);
      var q2 := Later(q1, localSessionId, before1);
      var q3 := Later(q2, localSessionId, [t1]);
      var q4 := Later(q3, localSessionId, before2);
      var q5 := Later(q4, localSessionId, [t2]);
      && Sends(q, localSessionId, before0, Request) == [] && Sends(q0, localSessionId, [t0], Request) == [request]
      && Sends(q1, localSessionId, before1, Request) == [] && Sends(q2, localSessionId, [t1], Request) == [request]
      && Sends(q3, localSessionId, before2, Request) == [] && Sends(q4, localSessionId, [t2], Request) == [request]
      && Sends(q5, localSessionId, after, Request) == []
  {
    hide Later, Sends, UpdatePresence, AsksNothing;
    PeerArrives(p, remoteSessionId, startMs);
    var q := UpdatePresence(p, Online, remoteSessionId, startMs);
    RequestWaits(q, localSessionId, before0, 0, startMs + 1_000);
    var q0 := Later(q, localSessionId, before0);
    RequestSent(q0, localSessionId, 0, startMs + 1_000, t0);
    var q1 := Later(q0, localSessionId, [t0]);
    RequestWaits(q1, localSessionId, before1, 1, t0 + 2_000);
    var q2 := Later(q1, localSessionId, before1);
    RequestSent(q2, localSessionId, 1, t0 + 2_000, t1);
    var q3 := Later(q2, localSessionId, [t1]);
    RequestWaits(q3, localSessionId, before2, 2, t1 + 5_000);
    var q4 := Later(q3, localSessionId, before2);
    RequestSent(q4, localSessionId, 2, t1 + 5_000, t2);
    RequestSilent(Later(q4, localSessionId, [t2]), localSessionId, after);
  }

  /** A stored INFO ends the questions. */
  lemma InfoEndsQuestions(p: PeerState, localSessionId: nat, packet: Packet, nowMs: nat, times: seq<nat>)
    requires packet.kind.Info? && Listens(p, packet.sessionId)
    ensures var q := OnPacket(p, localSessionId, packet, nowMs).0;
      && q.remote.valid && q.remoteSessionId == packet.sessionId && SameLocal(p, q)
      && Sends(q, localSessionId, times, Request) == []
  {
    hide ProfileFromPacket;
    RequestSilent(OnPacket(p, localSessionId, packet, nowMs).0, localSessionId, times);
    hide Sends;
  }
}
