/**
 A prober and the peer it probes over a network that loses, duplicates, delays and reorders:
 anything sent may arrive at any later time, any number of times, under one clock.
 */
module PresenceNetwork {
  import opened Basics
  import opened PresenceSpec

  datatype SentPing = SentPing(nonce: nat, sentMs: nat)

  /** A pong together with the one ping it answers. */
  datatype SentPong = SentPong(session: nat, ping: SentPing, repliedMs: nat)

  datatype System = System(
    prober: PeerState, nowMs: nat,
    pings: set<SentPing>, pongs: set<SentPong>, usedNonces: set<nat>,
    answer: SentPong, arrivedMs: nat)     // the pong accepted last and when

  datatype Event =
    | Ticked(nowMs: nat, draw: nat)
    | Replies(ping: SentPing, session: nat, nowMs: nat)       // the peer answers a ping, in any incarnation
    | Arrives(pong: SentPong, nowMs: nat, draw: nat)
    | Hears(nowMs: nat, draw: nat)                            // audio from the peer
    | Gets(packet: Packet, nowMs: nat, draw: nat)             // a ping or goodbye from the peer

  predicate Enabled(s: System, e: Event) {
    && s.nowMs <= e.nowMs
    && match e
       case Ticked(nowMs, draw) => draw !in s.usedNonces
       case Replies(ping, session, _) => ping in s.pings && session != 0
       case Arrives(pong, _, _) => pong in s.pongs
       case Hears(_, _) => true
       case Gets(packet, _, _) => !packet.kind.Pong? && ValidPacket(packet)
  }

  function PongPacket(pong: SentPong): Packet {
    Packet(Pong, pong.session, pong.ping.nonce)
  }

  function Next(s: System, e: Event): System {
    var t := s.(nowMs := e.nowMs);
    match e
    case Ticked(nowMs, draw) =>
      var (peer, actions) := Tick(s.prober, nowMs, draw);
      t.(prober := peer, usedNonces := s.usedNonces + {draw},
         pings := if actions == [] then s.pings else s.pings + {SentPing(actions[0].nonce, nowMs)})
    case Replies(ping, session, nowMs) =>
      t.(pongs := s.pongs + {SentPong(session, ping, nowMs)})
    case Arrives(pong, nowMs, draw) =>
      var peer := OnPacket(s.prober, PongPacket(pong), nowMs, draw).0;
      if Matches(s.prober, PongPacket(pong)) then t.(prober := peer, answer := pong, arrivedMs := nowMs)
      else t.(prober := peer)
    case Hears(nowMs, draw) => t.(prober := OnAudio(s.prober, nowMs, draw))
    case Gets(packet, nowMs, draw) => t.(prober := OnPacket(s.prober, packet, nowMs, draw).0)
  }

  function Boot(startMs: nat): System {
    System(INITIAL_PEER.(nextProbeAtMs := startMs), startMs, {}, {}, {0}, SentPong(0, SentPing(0, 0), 0), 0)
  }

  predicate CanRun(s: System, events: seq<Event>)
    decreases |events|
  {
    events == [] || (Enabled(s, events[0]) && CanRun(Next(s, events[0]), events[1..]))
  }

  function Run(s: System, events: seq<Event>): System
    decreases |events|
  {
    if events == [] then s else Run(Next(s, events[0]), events[1..])
  }

  /** The messages under way, and the probe outstanding among them. */
  predicate Causal(s: System) {
    && (forall m :: m in s.pings ==> m.nonce in s.usedNonces && m.sentMs <= s.nowMs)
    && (forall m :: m in s.pongs ==> m.session != 0 && m.ping in s.pings && m.ping.sentMs <= m.repliedMs <= s.nowMs)
    && (s.prober.awaitingPong ==>
          && s.prober.pendingNonce in s.usedNonces && s.prober.pingStartedAtMs <= s.nowMs
          && forall m :: m in s.pings && m.nonce == s.prober.pendingNonce ==> s.prober.pingStartedAtMs <= m.sentMs)
  }

  /** A visible round-trip time is at least the true round trip of the ping that was answered. */
  predicate Bounded(s: System) {
    var v := s.prober.visible;
    v.rttMs >= 0 ==>
      && v.state == Online && s.answer in s.pongs && s.answer.session == v.remoteSessionId
      && s.answer.ping.sentMs <= s.answer.repliedMs <= s.arrivedMs <= s.nowMs
      && s.arrivedMs - s.answer.ping.sentMs <= v.rttMs
  }

  lemma TickedKeeps(s: System, nowMs: nat, draw: nat)
    requires Causal(s) && Bounded(s) && Enabled(s, Ticked(nowMs, draw))
    ensures Causal(Next(s, Ticked(nowMs, draw))) && Bounded(Next(s, Ticked(nowMs, draw)))
  {
    hide Interval;
  }

  lemma ArrivesKeeps(s: System, pong: SentPong, nowMs: nat, draw: nat)
    requires Causal(s) && Bounded(s) && Enabled(s, Arrives(pong, nowMs, draw))
    ensures Causal(Next(s, Arrives(pong, nowMs, draw))) && Bounded(Next(s, Arrives(pong, nowMs, draw)))
  {
    hide Interval;
  }

  lemma NextKeeps(s: System, e: Event)
    requires Causal(s) && Bounded(s) && Enabled(s, e)
    ensures Causal(Next(s, e)) && Bounded(Next(s, e))
  {
    hide Interval;
    match e
    case Ticked(nowMs, draw) => TickedKeeps(s, nowMs, draw);
    case Arrives(pong, nowMs, draw) => ArrivesKeeps(s, pong, nowMs, draw);
    case _ =>
  }

  lemma {:induction false} RunKeeps(s: System, events: seq<Event>)
    requires Causal(s) && Bounded(s) && CanRun(s, events)
    ensures Causal(Run(s, events)) && Bounded(Run(s, events))
    decreases |events|
  {
    if events != [] {
      hide Causal, Bounded, Next, Enabled;
      NextKeeps(s, events[0]);
      RunKeeps(Next(s, events[0]), events[1..]);
    }
  }

  /** In every run with fresh nonces the visible round-trip time bounds a true round trip from above. */
  lemma RttBoundsRoundTrip(startMs: nat, events: seq<Event>)
    requires CanRun(Boot(startMs), events)
    ensures var s := Run(Boot(startMs), events); var v := s.prober.visible;
      v.rttMs >= 0 ==>
        && s.answer in s.pongs && s.answer.ping in s.pings && s.answer.session == v.remoteSessionId
        && s.answer.ping.sentMs <= s.answer.repliedMs <= s.arrivedMs
        && s.arrivedMs - s.answer.ping.sentMs <= v.rttMs
  {
    RunKeeps(Boot(startMs), events);
  }
}
