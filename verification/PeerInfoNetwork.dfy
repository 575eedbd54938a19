/**
 Two nodes running the peer-info protocol over a network that loses, duplicates and reorders
 datagrams: everything ever sent to a node may be delivered to it at any time, any number of
 times. Nodes may also restart with a fresh session. `stamp` and the fields after `peer` in
 `Node` are bookkeeping.
 */
module PeerInfoNetwork {
  import opened Basics
  import opened PeerInfoSpec

  /** A datagram, with how often its sender had lost its copy of the other side's profile when it was sent. */
  datatype Message = Message(packet: Packet, stamp: nat)

  datatype Node = Node(
    session: nat,
    peer: PeerState,
    sessions: set<nat>,                   // sessions of all incarnations
    issued: map<(nat, nat), Profile>,     // every profile ever announced, by (session, revision)
    losses: nat,                          // times the stored remote profile was lost
    ackStamp: nat)                        // the stamp of the ACK accepted last

  /** `mine` is one node, `theirs` the other; inboxes hold everything ever sent. */
  datatype System = System(mine: Node, theirs: Node, toMine: set<Message>, toTheirs: set<Message>)

  function Swapped(s: System): System {
    System(s.theirs, s.mine, s.toTheirs, s.toMine)
  }

  datatype Event =
    | SetProfile(profile: Profile, nowMs: nat)
    | Presence(state: PresenceState, remoteSessionId: nat, nowMs: nat)
    | Ticked(nowMs: nat)
    | Received(message: Message, nowMs: nat)
    | Restarted(session: nat)

  /** What can happen at `mine`: any presence report, any datagram sent to it, no revision wrap, fresh sessions. */
  predicate Enabled(s: System, e: Event) {
    match e
    case SetProfile(_, _) => s.mine.peer.localRevision < MAXIMUM_REVISION
    case Received(message, _) => message in s.toMine && ValidPacket(message.packet)
    case Restarted(session) => session != 0 && session !in s.mine.sessions
    case _ => true
  }

  function Keep(node: Node, peer: PeerState): Node {
    node.(peer := peer, losses := node.losses + if node.peer.remote.valid && !peer.remote.valid then 1 else 0)
  }

  function Sent(packets: seq<Packet>, stamp: nat): set<Message> {
    set i | 0 <= i < |packets| :: Message(packets[i], stamp)
  }

  function Act(s: System, e: Event): System {
    var node := s.mine;
    match e
    case SetProfile(profile, nowMs) =>
      var peer := SetLocalProfile(node.peer, profile, nowMs);
      s.(mine := node.(peer := peer, issued := node.issued[(node.session, peer.localRevision) := profile]))
    case Presence(state, remoteSessionId, nowMs) =>
      s.(mine := Keep(node, UpdatePresence(node.peer, state, remoteSessionId, nowMs)))
    case Ticked(nowMs) =>
      var (peer, packets) := Tick(node.peer, node.session, nowMs);
      s.(mine := Keep(node, peer), toTheirs := s.toTheirs + Sent(packets, node.losses))
    case Received(message, nowMs) =>
      var (peer, packets) := OnPacket(node.peer, node.session, message.packet, nowMs);
      var kept := Keep(node, peer);
      s.(mine := if peer.infoAcked && message.packet.kind.Ack? && message.packet == AckOfCurrent(node)
                 then kept.(ackStamp := message.stamp) else kept,
         toTheirs := s.toTheirs + Sent(packets, node.losses))
    case Restarted(session) =>
      s.(mine := Node(session, INITIAL_PEER, node.sessions + {session}, node.issued,
                      node.losses + if node.peer.remote.valid then 1 else 0, 0))
  }

  datatype Step = Step(atMine: bool, event: Event)

  predicate CanStep(s: System, step: Step) {
    Enabled(if step.atMine then s else Swapped(s), step.event)
  }

  function Next(s: System, step: Step): System {
    if step.atMine then Act(s, step.event) else Swapped(Act(Swapped(s), step.event))
  }

  function Boot(mySession: nat, theirSession: nat): System {
    System(Node(mySession, INITIAL_PEER, {mySession}, map[], 0, 0),
           Node(theirSession, INITIAL_PEER, {theirSession}, map[], 0, 0), {}, {})
  }

  predicate CanRun(s: System, steps: seq<Step>)
    decreases |steps|
  {
    steps == [] || (CanStep(s, steps[0]) && CanRun(Next(s, steps[0]), steps[1..]))
  }

  function Run(s: System, steps: seq<Step>): System
    decreases |steps|
  {
    if steps == [] then s else Run(Next(s, steps[0]), steps[1..])
  }

  function AckOfCurrent(node: Node): Packet {
    ControlPacket(Ack, node.session, node.peer.localRevision)
  }

  // ----- the invariant, one direction: profiles of `theirs`, copies at `mine` -----

  /** The node's announcements so far; the last one is its current profile. */
  predicate Announces(node: Node) {
    && node.session in node.sessions && 0 !in node.sessions
    && (if node.peer.localValid then
          && node.peer.localRevision >= 1
          && (node.session, node.peer.localRevision) in node.issued
          && node.issued[(node.session, node.peer.localRevision)] == node.peer.local
        else !node.peer.infoAcked && node.peer.localRevision == 0)
    && (forall key :: key in node.issued ==> key.0 in node.sessions)
    && (forall key :: key in node.issued && key.0 == node.session ==> key.1 <= node.peer.localRevision)
  }

  /** INFO packets on their way say what their sender announced. */
  predicate HonestInfos(sender: Node, inbox: set<Message>) {
    forall m :: m in inbox && m.packet.kind.Info? ==>
      var key := (m.packet.sessionId, m.packet.revision);
      key in sender.issued && m.packet == InfoPacket(key.0, key.1, sender.issued[key])
  }

  /** The stored remote profile was announced in the session the node is talking to. */
  predicate HonestCopy(holder: Node, source: Node) {
    holder.peer.remote.valid ==>
      var r := holder.peer.remote; var key := (r.remoteSessionId, r.remoteRevision);
      && holder.peer.online && r.remoteSessionId == holder.peer.remoteSessionId
      && key in source.issued && source.issued[key] == r.remoteProfile
  }

  /** ACKs sent since the copy was last lost are covered by the copy; the copy itself was acknowledged. */
  predicate HonestAcks(holder: Node, source: Node, sent: set<Message>) {
    && (forall m :: m in sent && m.packet.kind.Ack? ==>
          && m.stamp <= holder.losses
          && (m.packet.sessionId, m.packet.revision) in source.issued
          && (m.stamp == holder.losses ==>
                && holder.peer.remote.valid && holder.peer.remote.remoteSessionId == m.packet.sessionId
                && holder.peer.remote.remoteRevision >= m.packet.revision))
    && (holder.peer.remote.valid ==>
          Message(ControlPacket(Ack, holder.peer.remote.remoteSessionId, holder.peer.remote.remoteRevision),
                  holder.losses) in sent)
  }

  /** An acknowledged node has really been sent an ACK for what it announces now. */
  predicate HonestAcked(source: Node, inbox: set<Message>) {
    source.peer.infoAcked ==> source.peer.localValid && Message(AckOfCurrent(source), source.ackStamp) in inbox
  }

  predicate HalfInv(s: System) {
    && Announces(s.mine)
    && HonestInfos(s.mine, s.toTheirs)
    && HonestCopy(s.mine, s.theirs)
    && HonestAcks(s.mine, s.theirs, s.toTheirs)
    && HonestAcked(s.mine, s.toMine)
  }

  predicate Inv(s: System) {
    HalfInv(s) && HalfInv(Swapped(s))
  }

  // ----- every event keeps the invariant -----

  /** What the other node's half of the invariant needs: nothing announced or sent is ever taken back. */
  predicate Grows(s: System, t: System) {
    && t.theirs == s.theirs && t.toMine == s.toMine && s.toTheirs <= t.toTheirs
    && forall key :: key in s.mine.issued ==> key in t.mine.issued && t.mine.issued[key] == s.mine.issued[key]
  }

  lemma GrowthKeepsTheirs(s: System, t: System)
    requires HalfInv(Swapped(s)) && Grows(s, t)
    ensures HalfInv(Swapped(t))
  {
    hide Announces;
  }

  lemma ActGrows(s: System, e: Event)
    requires HalfInv(s) && Enabled(s, e)
    ensures Grows(s, Act(s, e))
  {
    hide HonestInfos, HonestCopy, HonestAcks, HonestAcked, OnPacket, Tick, UpdatePresence, Sent;
    match e
    case SetProfile(profile, nowMs) =>
    case _ =>
  }

  lemma SetProfileKeeps(s: System, profile: Profile, nowMs: nat)
    requires HalfInv(s) && s.mine.peer.localRevision < MAXIMUM_REVISION
    ensures HalfInv(Act(s, SetProfile(profile, nowMs)))
  {
    var t := Act(s, SetProfile(profile, nowMs));
    assert forall key :: key in s.mine.issued ==> key in t.mine.issued && t.mine.issued[key] == s.mine.issued[key];
    assert Announces(t.mine);
  }

  lemma PresenceKeeps(s: System, state: PresenceState, remoteSessionId: nat, nowMs: nat)
    requires HalfInv(s)
    ensures HalfInv(Act(s, Presence(state, remoteSessionId, nowMs)))
  {
    hide InfoPacket;
    var t := Act(s, Presence(state, remoteSessionId, nowMs));
    assert HonestInfos(t.mine, t.toTheirs);
    hide HonestInfos;
    assert HonestCopy(t.mine, t.theirs) && HonestAcks(t.mine, t.theirs, t.toTheirs);
  }

  lemma TickedKeeps(s: System, nowMs: nat)
    requires HalfInv(s)
    ensures HalfInv(Act(s, Ticked(nowMs)))
  {
    var t := Act(s, Ticked(nowMs));
    var packets := Tick(s.mine.peer, s.mine.session, nowMs).1;
    assert forall m :: m in Sent(packets, s.mine.losses) ==>
      (m.packet == CurrentInfo(s.mine.peer, s.mine.session) && s.mine.peer.localValid) || m.packet.kind.Request?;
    hide Sent;
    assert Announces(t.mine) && HonestInfos(t.mine, t.toTheirs);
    hide Announces, HonestInfos;
    assert HonestAcks(t.mine, t.theirs, t.toTheirs);
  }

  lemma SentAtMostOne(packets: seq<Packet>, stamp: nat)
    requires |packets| <= 1
    ensures Sent(packets, stamp) == if packets == [] then {} else {Message(packets[0], stamp)}
  {
    if packets != [] {
      assert Message(packets[0], stamp) in Sent(packets, stamp);
    }
  }

  /** A received INFO leaves the own announcements alone. */
  lemma InfoKeepsOwn(s: System, message: Message, nowMs: nat)
    requires Announces(s.mine) && HonestInfos(s.mine, s.toTheirs) && HonestAcked(s.mine, s.toMine)
    requires message.packet.kind.Info?
    ensures var t := Act(s, Received(message, nowMs));
      Announces(t.mine) && HonestInfos(t.mine, t.toTheirs) && HonestAcked(t.mine, t.toMine)
  {
    hide InfoPacket, ProfileFromPacket;
    SentAtMostOne(OnPacket(s.mine.peer, s.mine.session, message.packet, nowMs).1, s.mine.losses);
    hide Sent;
  }

  /** What is stored from a received INFO is what its sender announced. */
  lemma InfoKeepsCopy(s: System, message: Message, nowMs: nat)
    requires HonestCopy(s.mine, s.theirs) && HonestInfos(s.theirs, s.toMine)
    requires message in s.toMine && message.packet.kind.Info?
    requires s.mine.peer.remote.valid ==> s.mine.peer.remoteSessionId != 0
    ensures var t := Act(s, Received(message, nowMs)); HonestCopy(t.mine, t.theirs)
  {
    InfoRoundTrip(message.packet.sessionId, message.packet.revision,
                  s.theirs.issued[(message.packet.sessionId, message.packet.revision)]);
    hide InfoPacket, ProfileFromPacket, Sent;
  }

  /** The reply to an INFO is covered by the copy. */
  lemma InfoKeepsAcks(s: System, message: Message, nowMs: nat)
    requires HonestCopy(s.mine, s.theirs) && HonestInfos(s.theirs, s.toMine) && HonestAcks(s.mine, s.theirs, s.toTheirs)
    requires message in s.toMine && message.packet.kind.Info?
    requires s.mine.peer.remote.valid ==> s.mine.peer.remoteSessionId != 0
    ensures var t := Act(s, Received(message, nowMs)); HonestAcks(t.mine, t.theirs, t.toTheirs)
  {
    hide InfoPacket, ProfileFromPacket, OnPacket, Sent;
    InfoStoredIffNewer(s.mine.peer, s.mine.session, message.packet, nowMs);
    SentAtMostOne(OnPacket(s.mine.peer, s.mine.session, message.packet, nowMs).1, s.mine.losses);
  }

  lemma InfoKeeps(s: System, message: Message, nowMs: nat)
    requires Inv(s) && message in s.toMine && message.packet.kind.Info? && ValidPacket(message.packet)
    ensures HalfInv(Act(s, Received(message, nowMs)))
  {
    assert s.mine.peer.remote.valid ==> s.mine.peer.remoteSessionId != 0;
    hide Announces, HonestInfos, HonestCopy, HonestAcks, HonestAcked, Act;
    InfoKeepsOwn(s, message, nowMs);
    InfoKeepsCopy(s, message, nowMs);
    InfoKeepsAcks(s, message, nowMs);
  }

  lemma AckKeeps(s: System, message: Message, nowMs: nat)
    requires HalfInv(s) && message in s.toMine && message.packet.kind.Ack? && ValidPacket(message.packet)
    ensures HalfInv(Act(s, Received(message, nowMs)))
  {
    var replies := OnPacket(s.mine.peer, s.mine.session, message.packet, nowMs).1;
    SentAtMostOne(replies, s.mine.losses);
    hide Sent, HonestInfos, HonestAcks;
    var t := Act(s, Received(message, nowMs));
    assert t.toTheirs == s.toTheirs;
    assert HonestInfos(t.mine, t.toTheirs) && HonestAcks(t.mine, t.theirs, t.toTheirs) by {
      SameFacts(s, t);
    }
  }

  /** Facts about announcements and copies do not depend on the acknowledgement fields. */
  lemma SameFacts(s: System, t: System)
    requires HonestInfos(s.mine, s.toTheirs) && HonestAcks(s.mine, s.theirs, s.toTheirs)
    requires t.toTheirs == s.toTheirs && t.theirs == s.theirs && t.mine.issued == s.mine.issued
    requires t.mine.losses == s.mine.losses && t.mine.peer.remote == s.mine.peer.remote
    ensures HonestInfos(t.mine, t.toTheirs) && HonestAcks(t.mine, t.theirs, t.toTheirs)
  {
  }

  lemma RequestKeeps(s: System, message: Message, nowMs: nat)
    requires HalfInv(s) && message in s.toMine && message.packet.kind.Request? && ValidPacket(message.packet)
    ensures HalfInv(Act(s, Received(message, nowMs)))
  {
    var t := Act(s, Received(message, nowMs));
    var replies := OnPacket(s.mine.peer, s.mine.session, message.packet, nowMs).1;
    SentAtMostOne(replies, s.mine.losses);
    hide Sent;
    assert Announces(t.mine) && HonestInfos(t.mine, t.toTheirs);
    hide Announces, HonestInfos;
    assert HonestAcks(t.mine, t.theirs, t.toTheirs);
  }

  lemma RestartKeeps(s: System, session: nat)
    requires HalfInv(s) && session != 0 && session !in s.mine.sessions
    ensures HalfInv(Act(s, Restarted(session)))
  {
  }

  lemma ActKeeps(s: System, e: Event)
    requires Inv(s) && Enabled(s, e)
    ensures Inv(Act(s, e))
  {
    hide HalfInv, Act, ValidPacket;
    match e {
      case SetProfile(profile, nowMs) => SetProfileKeeps(s, profile, nowMs);
      case Presence(state, remoteSessionId, nowMs) => PresenceKeeps(s, state, remoteSessionId, nowMs);
      case Ticked(nowMs) => TickedKeeps(s, nowMs);
      case Received(message, nowMs) =>
        match message.packet.kind {
          case Info => InfoKeeps(s, message, nowMs);
          case Ack => AckKeeps(s, message, nowMs);
          case Request => RequestKeeps(s, message, nowMs);
        }
      case Restarted(session) => RestartKeeps(s, session);
    }
    ActGrows(s, e);
    GrowthKeepsTheirs(s, Act(s, e));
  }

  lemma {:induction false} RunKeeps(s: System, steps: seq<Step>)
    requires Inv(s) && CanRun(s, steps)
    ensures Inv(Run(s, steps))
    decreases |steps|
  {
    if steps != [] {
      hide HalfInv, Act, Enabled;
      if steps[0].atMine {
        ActKeeps(s, steps[0].event);
      } else {
        ActKeeps(Swapped(s), steps[0].event);
      }
      RunKeeps(Next(s, steps[0]), steps[1..]);
    }
  }

  lemma BootHolds(mySession: nat, theirSession: nat)
    requires mySession != 0 && theirSession != 0
    ensures Inv(Boot(mySession, theirSession))
  {
  }

  // ----- what every run promises -----

  predicate Reachable(s: System, mySession: nat, theirSession: nat, steps: seq<Step>) {
    && mySession != 0 && theirSession != 0
    && CanRun(Boot(mySession, theirSession), steps) && s == Run(Boot(mySession, theirSession), steps)
  }

  /** A valid stored profile is exactly what the other node announced under that session and revision. */
  lemma CopiesAreGenuine(s: System, mySession: nat, theirSession: nat, steps: seq<Step>)
    requires Reachable(s, mySession, theirSession, steps) && s.mine.peer.remote.valid
    ensures var r := s.mine.peer.remote;
      && (r.remoteSessionId, r.remoteRevision) in s.theirs.issued
      && s.theirs.issued[(r.remoteSessionId, r.remoteRevision)] == r.remoteProfile
      && r.remoteSessionId == s.mine.peer.remoteSessionId && r.remoteSessionId in s.theirs.sessions
  {
    BootHolds(mySession, theirSession);
    RunKeeps(Boot(mySession, theirSession), steps);
  }

  /** `holder` stores exactly what `source` announces now. */
  predicate UpToDate(holder: Node, source: Node) {
    holder.peer.remote == Snapshot(true, source.session, source.peer.localRevision, source.peer.local)
  }

  /**
   Agreement: a node that counts its profile as acknowledged, while the other has not lost its
   copy since sending that ACK, is right: the other holds its current revision and profile.
   */
  lemma AcknowledgedAgrees(s: System, mySession: nat, theirSession: nat, steps: seq<Step>)
    requires Reachable(s, mySession, theirSession, steps)
    requires s.mine.peer.infoAcked && s.mine.ackStamp == s.theirs.losses
    ensures s.mine.peer.localValid && UpToDate(s.theirs, s.mine)
  {
    BootHolds(mySession, theirSession);
    RunKeeps(Boot(mySession, theirSession), steps);
    hide Reachable;
    StampedAgrees(s);
  }

  lemma StampedAgrees(s: System)
    requires Inv(s) && s.mine.peer.localValid
    requires Message(AckOfCurrent(s.mine), s.theirs.losses) in s.toMine
    ensures UpToDate(s.theirs, s.mine)
  {
    var ack := Message(AckOfCurrent(s.mine), s.theirs.losses);
    assert ack.packet.kind.Ack?;
  }

  /**
   Exactly when the other node is up to date: an ACK for the current announcement was sent since it last lost
   its copy.
   */
  lemma UpToDateIffAcked(s: System, mySession: nat, theirSession: nat, steps: seq<Step>)
    requires Reachable(s, mySession, theirSession, steps) && s.mine.peer.localValid
    ensures UpToDate(s.theirs, s.mine) <==> Message(AckOfCurrent(s.mine), s.theirs.losses) in s.toMine
  {
    BootHolds(mySession, theirSession);
    RunKeeps(Boot(mySession, theirSession), steps);
    hide Reachable;
    if Message(AckOfCurrent(s.mine), s.theirs.losses) in s.toMine {
      StampedAgrees(s);
    }
  }

  // ----- how long agreement lasts -----

  /** The step takes no stored profile away from `theirs`: no restart and no presence report that clears it. */
  predicate KeepsCopy(s: System, step: Step) {
    || step.atMine || !s.theirs.peer.remote.valid
    || match step.event
       case Presence(state, sessionId, _) =>
         state == Online && (sessionId == 0 || sessionId == s.theirs.peer.remoteSessionId)
       case Restarted(_) => false
       case _ => true
  }

  predicate CopyKept(s: System, steps: seq<Step>)
    decreases |steps|
  {
    steps == [] || (KeepsCopy(s, steps[0]) && CopyKept(Next(s, steps[0]), steps[1..]))
  }

  /** If the current announcement was ever acknowledged, then also since `theirs` last lost its copy. */
  ghost predicate Answered(s: System) {
    s.mine.peer.localValid && (exists stamp :: Message(AckOfCurrent(s.mine), stamp) in s.toMine) ==>
      Message(AckOfCurrent(s.mine), s.theirs.losses) in s.toMine
  }

  /** An event that takes no copy away loses none. */
  lemma NothingLost(s: System, e: Event)
    requires HalfInv(s) && Enabled(s, e) && KeepsCopy(Swapped(s), Step(false, e))
    ensures Act(s, e).mine.losses == s.mine.losses
  {
    hide Tick, OnPacket, UpdatePresence, Sent, HalfInv;
    var p, session := s.mine.peer, s.mine.session;
    match e
    case SetProfile(_, _) =>
    case Presence(state, sessionId, nowMs) => PresenceKeepsLocal(p, state, sessionId, nowMs);
    case Ticked(nowMs) => TickKeepsLocal(p, session, nowMs);
    case Received(message, nowMs) => PacketKeepsLocal(p, session, message.packet, nowMs);
    case Restarted(_) =>
  }

  /** What the other node does keeps the question answered: every ACK it sends bears the present stamp. */
  lemma TheirsKeepsAnswered(s: System, e: Event)
    requires Inv(s) && Enabled(Swapped(s), e) && Answered(s) && KeepsCopy(s, Step(false, e))
    ensures Answered(Next(s, Step(false, e)))
  {
    NothingLost(Swapped(s), e);
    ActGrows(Swapped(s), e);
    SentStamps(Swapped(s), e);
    hide Inv, HalfInv, Act;
    var t := Next(s, Step(false, e));
    assert t.mine == s.mine && t.theirs.losses == s.theirs.losses;
  }

  lemma SentStamps(s: System, e: Event)
    ensures forall m :: m in Act(s, e).toTheirs && m !in s.toTheirs ==> m.stamp == s.mine.losses
  {
    hide Tick, OnPacket, UpdatePresence, SetLocalProfile;
  }

  /** What the node itself does keeps the question answered: a new announcement has no ACK yet. */
  lemma MineKeepsAnswered(s: System, e: Event)
    requires Inv(s) && Enabled(s, e) && Answered(s)
    ensures Answered(Act(s, e))
  {
    hide HonestInfos, HonestCopy, HonestAcked;
    var t := Act(s, e);
    if e.SetProfile? && t.mine.peer.localRevision != s.mine.peer.localRevision {
      forall stamp ensures Message(AckOfCurrent(t.mine), stamp) !in t.toMine {
        assert (t.mine.session, t.mine.peer.localRevision) !in s.mine.issued;
        assert Message(AckOfCurrent(t.mine), stamp).packet.kind.Ack?;
      }
    } else if !e.Restarted? {
      SameAnnouncement(s, e);
    }
  }

  lemma SameAnnouncement(s: System, e: Event)
    requires !e.Restarted? && (e.SetProfile? ==> Act(s, e).mine.peer.localRevision == s.mine.peer.localRevision)
    ensures var t := Act(s, e);
      && AckOfCurrent(t.mine) == AckOfCurrent(s.mine) && t.toMine == s.toMine && t.theirs == s.theirs
      && t.mine.peer.localValid == s.mine.peer.localValid
  {
    hide Tick, OnPacket, UpdatePresence, Sent;
    var p, session := s.mine.peer, s.mine.session;
    match e
    case SetProfile(_, _) =>
    case Presence(state, sessionId, nowMs) => PresenceKeepsLocal(p, state, sessionId, nowMs);
    case Ticked(nowMs) => TickKeepsLocal(p, session, nowMs);
    case Received(message, nowMs) => PacketKeepsLocal(p, session, message.packet, nowMs);
  }

  lemma InvSwaps(s: System)
    requires Inv(s)
    ensures Inv(Swapped(s))
  {
    hide HalfInv;
  }

  lemma {:induction false} AnsweredLasts(s: System, steps: seq<Step>)
    requires Inv(s) && Answered(s) && CanRun(s, steps) && CopyKept(s, steps)
    ensures var t := Run(s, steps); Inv(t) && Answered(t)
    decreases |steps|
  {
    if steps != [] {
      hide Inv, Act, Enabled, Answered;
      var step := steps[0];
      if step.atMine {
        ActKeeps(s, step.event);
        MineKeepsAnswered(s, step.event);
      } else {
        InvSwaps(s);
        ActKeeps(Swapped(s), step.event);
        InvSwaps(Act(Swapped(s), step.event));
        TheirsKeepsAnswered(s, step.event);
      }
      AnsweredLasts(Next(s, step), steps[1..]);
    }
  }

  lemma AnsweredAgrees(s: System)
    requires Inv(s) && Answered(s) && s.mine.peer.infoAcked
    ensures UpToDate(s.theirs, s.mine)
  {
    assert Message(AckOfCurrent(s.mine), s.mine.ackStamp) in s.toMine;
    StampedAgrees(s);
  }

  /**
   Once the other node is up to date in some run, then over every continuation in which it
   neither restarts nor clears its copy, whatever else both do and the network delivers, a
   node that counts as acknowledged is right.
   */
  lemma AgreementLasts(s: System, mySession: nat, theirSession: nat, before: seq<Step>, steps: seq<Step>)
    requires Reachable(s, mySession, theirSession, before) && s.mine.peer.localValid && UpToDate(s.theirs, s.mine)
    requires CanRun(s, steps) && CopyKept(s, steps)
    ensures var t := Run(s, steps); t.mine.peer.infoAcked ==> UpToDate(t.theirs, t.mine)
  {
    BootHolds(mySession, theirSession);
    RunKeeps(Boot(mySession, theirSession), before);
    UpToDateIffAcked(s, mySession, theirSession, before);
    hide Reachable, Inv, HalfInv;
    AnsweredLasts(s, steps);
    if Run(s, steps).mine.peer.infoAcked {
      AnsweredAgrees(Run(s, steps));
    }
  }

  /** In a run in which the other node never restarts or clears a copy, acknowledged always means up to date. */
  lemma AgreementFromBoot(mySession: nat, theirSession: nat, steps: seq<Step>)
    requires mySession != 0 && theirSession != 0
    requires CanRun(Boot(mySession, theirSession), steps) && CopyKept(Boot(mySession, theirSession), steps)
    ensures var t := Run(Boot(mySession, theirSession), steps);
      t.mine.peer.infoAcked ==> UpToDate(t.theirs, t.mine)
  {
    var s := Boot(mySession, theirSession);
    BootHolds(mySession, theirSession);
    assert Answered(s);
    hide Inv, HalfInv, Boot;
    AnsweredLasts(s, steps);
    if Run(s, steps).mine.peer.infoAcked {
      AnsweredAgrees(Run(s, steps));
    }
  }

  // ----- what an acknowledgement does not promise, and the repair -----

  predicate Misled(s: System) {
    s.mine.peer.infoAcked && !s.theirs.peer.remote.valid
  }

  /** A run in which the other node has stored the profile and its ACK is on the way. */
  lemma AckInFlight(rest: seq<Step>) returns (steps: seq<Step>, s: System)
    ensures Run(Boot(1, 2), steps) == Run(s, rest) && (CanRun(Boot(1, 2), steps) <==> CanRun(s, rest))
    ensures Message(ControlPacket(Ack, 1, 1), 0) in s.toMine
    ensures s.theirs.sessions == {2} && s.mine.session == 1
    ensures s.mine.peer.online && s.mine.peer.localValid && s.mine.peer.localRevision == 1
  {
    var profile := Profile(1, 1, 1, 1);
    var info, ack := Message(InfoPacket(1, 1, profile), 0), Message(ControlPacket(Ack, 1, 1), 0);
    var s0 := Boot(1, 2);
    var e0 := Step(true, SetProfile(profile, 0));
    var s1 := Next(s0, e0);
    var e1 := Step(true, Presence(Online, 2, 0));
    var s2 := Next(s1, e1);
    var e2 := Step(false, Presence(Online, 1, 0));
    var s3 := Next(s2, e2);
    var e3 := Step(true, Ticked(0));
    var s4 := Next(s3, e3);
    SentAtMostOne(Tick(s3.mine.peer, 1, 0).1, 0);
    assert info in s4.toTheirs;
    var e4 := Step(false, Received(info, 0));
    var s5 := Next(s4, e4);
    SentAtMostOne(OnPacket(s4.theirs.peer, 2, info.packet, 0).1, 0);
    assert ack in s5.toMine;
    assert CanStep(s0, e0) && CanStep(s1, e1) && CanStep(s2, e2) && CanStep(s3, e3) && CanStep(s4, e4);
    hide Next, CanStep, Run, CanRun, Boot;
    RunCons(s4, e4, rest);
    RunCons(s3, e3, [e4] + rest);
    RunCons(s2, e2, [e3] + ([e4] + rest));
    RunCons(s1, e1, [e2] + ([e3] + ([e4] + rest)));
    RunCons(s0, e0, [e1] + ([e2] + ([e3] + ([e4] + rest))));
    steps := [e0] + ([e1] + ([e2] + ([e3] + ([e4] + rest))));
    s := s5;
  }

  /**
   Without the proviso agreement fails: an ACK names the session it answers, not the one that
   sent it, so a node accepts the ACK of a peer that has since restarted and holds nothing.
   */
  lemma StaleAckMisleads()
    ensures exists steps :: CanRun(Boot(1, 2), steps) && Misled(Run(Boot(1, 2), steps))
  {
    var ack := Message(ControlPacket(Ack, 1, 1), 0);
    var e5, e6 := Step(false, Restarted(3)), Step(true, Received(ack, 0));
    var rest := [e5] + ([e6] + []);
    var steps, s5 := AckInFlight(rest);
    var s6 := Next(s5, e5);
    var s7 := Next(s6, e6);
    assert CanStep(s5, e5) && CanStep(s6, e6) && Misled(s7);
    hide Next, CanStep, Run, CanRun, Misled, Boot;
    RunCons(s5, e5, [e6] + []);
    RunCons(s6, e6, []);
    RunNothing(s7);
  }

  lemma RunNothing(s: System)
    ensures Run(s, []) == s && CanRun(s, [])
  {
  }

  lemma RunCons(s: System, step: Step, rest: seq<Step>)
    ensures Run(s, [step] + rest) == Run(Next(s, step), rest)
    ensures CanRun(s, [step] + rest) <==> CanStep(s, step) && CanRun(Next(s, step), rest)
  {
    assert ([step] + rest)[1..] == rest;
  }

  predicate Talking(s: System) {
    && s.mine.peer.online && s.theirs.peer.online
    && s.mine.peer.remoteSessionId == s.theirs.session
    && (s.theirs.peer.remoteSessionId == 0 || s.theirs.peer.remoteSessionId == s.mine.session)
  }

  /**
   The repair, from any state of the invariant in which the two talk to each other: delivering
   a REQUEST, the INFO it causes and the ACK that INFO causes leaves both in agreement.
   */
  lemma RequestRepairs(s: System, request: Message, nowMs: nat)
    requires Inv(s) && Talking(s) && s.mine.peer.localValid && Sendable(s.mine.peer.local)
    requires request in s.toMine && request.packet == ControlPacket(Request, s.theirs.session, 1)
    ensures var info := Message(CurrentInfo(s.mine.peer, s.mine.session), s.mine.losses);
      var ack := Message(AckOfCurrent(s.mine), s.theirs.losses);
      var s1 := Next(s, Step(true, Received(request, nowMs)));
      var s2 := Next(s1, Step(false, Received(info, nowMs)));
      var s3 := Next(s2, Step(true, Received(ack, nowMs)));
      && CanRun(s, [Step(true, Received(request, nowMs)), Step(false, Received(info, nowMs)),
                    Step(true, Received(ack, nowMs))])
      && s3.mine.peer.infoAcked && UpToDate(s3.theirs, s3.mine)
      && s3.mine.peer.local == s.mine.peer.local && s3.mine.ackStamp == s3.theirs.losses
  {
    var info := Message(CurrentInfo(s.mine.peer, s.mine.session), s.mine.losses);
    var ack := Message(AckOfCurrent(s.mine), s.theirs.losses);
    var e1, e2, e3 := Step(true, Received(request, nowMs)), Step(false, Received(info, nowMs)),
      Step(true, Received(ack, nowMs));
    var s1 := Next(s, e1);
    RequestAnswered(s, request, nowMs);
    ActKeeps(s, e1.event);
    InfoStored(s1, info, nowMs);
    var s2 := Next(s1, e2);
    hide Inv, HalfInv, Announces;
    var s3 := Next(s2, e3);
    SentAtMostOne(OnPacket(s2.mine.peer, s2.mine.session, ack.packet, nowMs).1, s2.mine.losses);
    assert s3.mine.peer.infoAcked && s3.theirs == s2.theirs;
    assert CanStep(s, e1) && CanStep(s1, e2) && CanStep(s2, e3);
    hide Next, CanStep, UpToDate;
    RunCons(s2, e3, []);
    RunCons(s1, e2, [e3]);
    RunCons(s, e1, [e2] + [e3]);
    assert [e3] + [] == [e3] && [e1] + ([e2] + [e3]) == [e1, e2, e3];
  }

  lemma RequestAnswered(s: System, request: Message, nowMs: nat)
    requires Announces(s.mine) && Announces(s.theirs) && Talking(s)
    requires s.mine.peer.localValid && Sendable(s.mine.peer.local)
    requires request in s.toMine && request.packet == ControlPacket(Request, s.theirs.session, 1)
    ensures var t := Act(s, Received(request, nowMs));
      var info := Message(CurrentInfo(s.mine.peer, s.mine.session), s.mine.losses);
      && info in t.toTheirs && Enabled(s, Received(request, nowMs)) && ValidPacket(info.packet) && Talking(t)
      && t.theirs == s.theirs && t.mine.session == s.mine.session && t.mine.losses == s.mine.losses
      && t.mine.peer.localValid && t.mine.peer.local == s.mine.peer.local
      && t.mine.peer.localRevision == s.mine.peer.localRevision
  {
    SentAtMostOne(OnPacket(s.mine.peer, s.mine.session, request.packet, nowMs).1, s.mine.losses);
    InfoRoundTrip(s.mine.session, s.mine.peer.localRevision, s.mine.peer.local);
  }

  lemma InfoStored(s: System, info: Message, nowMs: nat)
    requires Inv(s) && Talking(s) && s.mine.peer.localValid && ValidPacket(info.packet)
    requires info in s.toTheirs && info.packet == CurrentInfo(s.mine.peer, s.mine.session)
    ensures var t := Next(s, Step(false, Received(info, nowMs)));
      && Message(AckOfCurrent(s.mine), s.theirs.losses) in t.toMine && t.mine == s.mine
      && ValidPacket(AckOfCurrent(s.mine)) && UpToDate(t.theirs, t.mine) && t.theirs.losses == s.theirs.losses
  {
    SentAtMostOne(OnPacket(s.theirs.peer, s.theirs.session, info.packet, nowMs).1, s.theirs.losses);
    InfoRoundTrip(s.mine.session, s.mine.peer.localRevision, s.mine.peer.local);
    var r := s.theirs.peer.remote;
    assert r.valid ==> r.remoteSessionId == s.mine.session && r.remoteRevision <= s.mine.peer.localRevision;
    hide HonestInfos, HonestAcks, HonestAcked, Announces;
  }
}
