/** Which peers a discovery lists, said over the answers that came in, up to what the dialog shows. */
module DiscoveryLaws {
  import opened Basics
  import opened TextCodec
  import opened LineBuffers
  import opened Telemetry
  import opened DiscoveryRuns

  /** The running request and its answers, in the order they came. */
  datatype Heard = Heard(running: nat, answers: seq<DiscoveryPeer>)

  function Listen(h: Heard, e: Event): Heard {
    match e
    case Begins(requestId) => Heard(requestId, [])
    case Finds(peer) =>
      if peer.requestId != 0 && peer.requestId == h.running then h.(answers := h.answers + [peer]) else h
    case Prints(_) => h
  }

  function ListenAll(h: Heard, events: seq<Event>): Heard
    decreases |events|
  {
    if events == [] then h else ListenAll(Listen(h, events[0]), events[1..])
  }

  /** The position of the first answer of a session, or the number of answers. */
  function FirstHeard(answers: seq<DiscoveryPeer>, sessionId: nat): (i: nat)
    ensures i <= |answers| && (i < |answers| ==> answers[i].sessionId == sessionId)
    ensures forall j :: 0 <= j < i ==> answers[j].sessionId != sessionId
  {
    if answers == [] || answers[0].sessionId == sessionId then 0 else 1 + FirstHeard(answers[1..], sessionId)
  }

  /** The answer that speaks for its session: the last one that is a known contact, or the last one if none is. */
  predicate Decides(answers: seq<DiscoveryPeer>, k: nat)
    requires k < |answers|
  {
    forall m :: 0 <= m < |answers| && m != k && answers[m].sessionId == answers[k].sessionId ==>
      if answers[k].alreadyContact then m > k ==> !answers[m].alreadyContact
      else m < k && !answers[m].alreadyContact
  }

  /** The entry is the answer that decides for its session. */
  predicate Speaks(entry: DiscoveryPeer, answers: seq<DiscoveryPeer>) {
    exists k :: 0 <= k < |answers| && answers[k] == entry && Decides(answers, k)
  }

  predicate Listed(peers: seq<DiscoveryPeer>, sessionId: nat) {
    exists i :: 0 <= i < |peers| && peers[i].sessionId == sessionId
  }

  /** The list has one entry per session that answered, in the order of first answers, each the deciding answer. */
  ghost predicate Reflects(peers: seq<DiscoveryPeer>, answers: seq<DiscoveryPeer>) {
    && (forall sessionId :: Listed(peers, sessionId) <==> Listed(answers, sessionId))
    && (forall i :: 0 <= i < |peers| ==> Speaks(peers[i], answers))
    && (forall i, j :: 0 <= i < j < |peers| ==>
          FirstHeard(answers, peers[i].sessionId) < FirstHeard(answers, peers[j].sessionId))
  }

  predicate OfRunning(peers: seq<DiscoveryPeer>, running: nat) {
    forall i :: 0 <= i < |peers| ==> peers[i].requestId == running
  }

  lemma {:induction false} FirstHeardExtends(answers: seq<DiscoveryPeer>, answer: DiscoveryPeer, sessionId: nat)
    ensures FirstHeard(answers + [answer], sessionId) ==
      if Listed(answers, sessionId) then FirstHeard(answers, sessionId)
      else |answers| + (if answer.sessionId == sessionId then 0 else 1)
  {
    var all := answers + [answer];
    assert forall i :: 0 <= i < |answers| ==> all[i] == answers[i];
    assert all[|answers|] == answer;
    var first := FirstHeard(all, sessionId);
    if Listed(answers, sessionId) {
      var k :| 0 <= k < |answers| && answers[k].sessionId == sessionId;
      assert all[k].sessionId == sessionId;
    }
  }

  lemma SpeaksStill(entry: DiscoveryPeer, answers: seq<DiscoveryPeer>, answer: DiscoveryPeer)
    requires Speaks(entry, answers)
    requires entry.sessionId != answer.sessionId || (entry.alreadyContact && !answer.alreadyContact)
    ensures Speaks(entry, answers + [answer])
  {
    var all := answers + [answer];
    assert forall i :: 0 <= i < |answers| ==> all[i] == answers[i];
    var k :| 0 <= k < |answers| && answers[k] == entry && Decides(answers, k);
    assert all[k] == entry && Decides(all, k);
  }

  /** The new answer decides, if nothing is known of its session, or it is a contact, or none was. */
  lemma SpeaksNow(answers: seq<DiscoveryPeer>, answer: DiscoveryPeer)
    requires answer.alreadyContact ||
      forall m :: 0 <= m < |answers| && answers[m].sessionId == answer.sessionId ==> !answers[m].alreadyContact
    ensures Speaks(answer, answers + [answer])
  {
    var all := answers + [answer];
    assert forall i :: 0 <= i < |answers| ==> all[i] == answers[i];
    assert all[|answers|] == answer && Decides(all, |answers|);
  }

  /** If the entry of a session is no contact, no answer of that session was one. */
  lemma NoContactHeard(entry: DiscoveryPeer, answers: seq<DiscoveryPeer>)
    requires Speaks(entry, answers) && !entry.alreadyContact
    ensures forall m :: 0 <= m < |answers| && answers[m].sessionId == entry.sessionId ==> !answers[m].alreadyContact
  {
  }

  lemma ListedExtends(answers: seq<DiscoveryPeer>, answer: DiscoveryPeer, sessionId: nat)
    ensures Listed(answers + [answer], sessionId) <==> Listed(answers, sessionId) || answer.sessionId == sessionId
  {
    var all := answers + [answer];
    assert forall i :: 0 <= i < |answers| ==> all[i] == answers[i];
    assert all[|answers|] == answer;
  }

  lemma ListedReplaced(peers: seq<DiscoveryPeer>, i: nat, peer: DiscoveryPeer, sessionId: nat)
    requires i < |peers| && peers[i].sessionId == peer.sessionId
    ensures Listed(peers[i := peer], sessionId) <==> Listed(peers, sessionId)
  {
    var all := peers[i := peer];
    if Listed(peers, sessionId) {
      var k :| 0 <= k < |peers| && peers[k].sessionId == sessionId;
      assert all[k].sessionId == sessionId;
    }
  }

  /** The first answer of a session is appended. */
  lemma FirstAnswerReflected(peers: seq<DiscoveryPeer>, answers: seq<DiscoveryPeer>, answer: DiscoveryPeer)
    requires Reflects(peers, answers) && !Listed(peers, answer.sessionId)
    ensures Reflects(peers + [answer], answers + [answer])
  {
    var all := peers + [answer];
    forall sessionId ensures Listed(all, sessionId) <==> Listed(answers + [answer], sessionId) {
      ListedExtends(peers, answer, sessionId);
      ListedExtends(answers, answer, sessionId);
    }
    forall i | 0 <= i < |all| ensures Speaks(all[i], answers + [answer]) {
      if i < |peers| {
        assert Listed(peers, peers[i].sessionId);
        SpeaksStill(peers[i], answers, answer);
      } else {
        assert !Listed(answers, answer.sessionId);
        SpeaksNow(answers, answer);
      }
    }
    hide Speaks, Decides;
    forall i, j | 0 <= i < j < |all|
      ensures FirstHeard(answers + [answer], all[i].sessionId) < FirstHeard(answers + [answer], all[j].sessionId)
    {
      assert Listed(peers, peers[i].sessionId);
      FirstHeardExtends(answers, answer, all[i].sessionId);
      FirstHeardExtends(answers, answer, all[j].sessionId);
      HeardInside(answers, all[i].sessionId);
      if j < |peers| {
        assert Listed(peers, peers[j].sessionId);
      }
    }
  }

  lemma HeardInside(answers: seq<DiscoveryPeer>, sessionId: nat)
    requires Listed(answers, sessionId)
    ensures FirstHeard(answers, sessionId) < |answers|
  {
  }

  /** A further answer of a listed session replaces its entry or leaves it, in place. */
  lemma LaterAnswerReflected(peers: seq<DiscoveryPeer>, answers: seq<DiscoveryPeer>, answer: DiscoveryPeer, i: nat,
                             entry: DiscoveryPeer)
    requires Reflects(peers, answers) && i < |peers| && peers[i].sessionId == answer.sessionId
    requires entry == if peers[i].alreadyContact && !answer.alreadyContact then peers[i] else answer
    ensures Reflects(peers[i := entry], answers + [answer])
  {
    var all := peers[i := entry];
    forall sessionId ensures Listed(all, sessionId) <==> Listed(answers + [answer], sessionId) {
      ListedReplaced(peers, i, entry, sessionId);
      ListedExtends(answers, answer, sessionId);
      assert Listed(peers, answer.sessionId);
    }
    forall j | 0 <= j < |all| ensures Speaks(all[j], answers + [answer]) {
      if j != i {
        assert FirstHeard(answers, peers[j].sessionId) != FirstHeard(answers, peers[i].sessionId);
        SpeaksStill(peers[j], answers, answer);
      } else if peers[i].alreadyContact && !answer.alreadyContact {
        SpeaksStill(peers[i], answers, answer);
      } else {
        if !peers[i].alreadyContact {
          NoContactHeard(peers[i], answers);
        }
        SpeaksNow(answers, answer);
      }
    }
    hide Speaks, Decides;
    forall j, k | 0 <= j < k < |all|
      ensures FirstHeard(answers + [answer], all[j].sessionId) < FirstHeard(answers + [answer], all[k].sessionId)
    {
      assert all[j].sessionId == peers[j].sessionId && all[k].sessionId == peers[k].sessionId;
      assert Listed(peers, peers[j].sessionId) && Listed(peers, peers[k].sessionId);
      FirstHeardExtends(answers, answer, all[j].sessionId);
      FirstHeardExtends(answers, answer, all[k].sessionId);
    }
  }

  lemma AnswerReflected(running: nat, peers: seq<DiscoveryPeer>, answers: seq<DiscoveryPeer>, answer: DiscoveryPeer)
    requires Reflects(peers, answers) && OfRunning(peers, running) && answer.requestId == running != 0
    ensures Reflects(Added(running, peers, answer), answers + [answer])
    ensures OfRunning(Added(running, peers, answer), running)
  {
    hide Reflects, Upsert;
    if Listed(peers, answer.sessionId) {
      var i :| 0 <= i < |peers| && peers[i].sessionId == answer.sessionId;
      DistinctSessions(peers, answers);
      UpsertAt(peers, answer, i);
      var entry := if peers[i].alreadyContact && !answer.alreadyContact then peers[i] else answer;
      assert KnowsContact(peers, answer) <==> peers[i].alreadyContact;
      assert peers[i := peers[i]] == peers;
      LaterAnswerReflected(peers, answers, answer, i, entry);
    } else {
      UpsertNew(peers, answer);
      FirstAnswerReflected(peers, answers, answer);
    }
  }

  lemma DistinctSessions(peers: seq<DiscoveryPeer>, answers: seq<DiscoveryPeer>)
    requires Reflects(peers, answers)
    ensures forall i, j :: 0 <= i < j < |peers| ==> peers[i].sessionId != peers[j].sessionId
  {
    hide Speaks, Listed;
    forall i, j | 0 <= i < j < |peers| ensures peers[i].sessionId != peers[j].sessionId {
      assert FirstHeard(answers, peers[i].sessionId) < FirstHeard(answers, peers[j].sessionId);
    }
  }

  ghost predicate Agrees(c: Core, h: Heard) {
    c.requestId == h.running && Reflects(c.peers, h.answers) && OfRunning(c.peers, c.requestId)
  }

  lemma {:induction false} RunReflects(c: Core, h: Heard, events: seq<Event>)
    requires Agrees(c, h) && CanRun(c, events)
    ensures Agrees(Run(c, events), ListenAll(h, events))
    decreases |events|
  {
    hide Reflects, Added, SnapshotText;
    if events != [] {
      var e := events[0];
      match e {
        case Begins(_) => NothingListed();
        case Finds(peer) => FindsReflected(c, h, peer);
        case Prints(_) =>
      }
      RunReflects(Next(c, e), Listen(h, e), events[1..]);
    }
  }

  lemma NothingListed()
    ensures Reflects([], [])
  {
  }

  lemma FindsReflected(c: Core, h: Heard, peer: DiscoveryPeer)
    requires Agrees(c, h)
    ensures Agrees(Next(c, Finds(peer)), Listen(h, Finds(peer)))
  {
    hide Reflects, KnowsContact, Upsert;
    if peer.requestId != 0 && peer.requestId == h.running {
      AnswerReflected(h.running, c.peers, h.answers, peer);
    }
  }

  /**
   Over every run of the core: a session is listed exactly when an answer to the running request
   and of that session came since the request began, once, in the order of first answers, with
   the last answer that is a known contact, or the last one if none is.
   */
  lemma ListReflectsAnswers(events: seq<Event>)
    requires CanRun(NOTHING_YET, events)
    ensures Reflects(Run(NOTHING_YET, events).peers, ListenAll(Heard(0, []), events).answers)
  {
    hide Reflects;
    NothingListed();
    RunReflects(NOTHING_YET, Heard(0, []), events);
  }

  /**
   From the answers to the dialog: after a snapshot of the running discovery was read, over any
   cutting of all output, what the dialog of that request shows reflects the answers that came.
   */
  lemma DialogReflectsAnswers<T>(others: (T, string) -> Option<T>, rest: T, events: seq<Event>,
                                 more: seq<seq<string>>, chunks: seq<string>, limit: nat)
    requires CanRun(NOTHING_YET, events)
    requires forall i :: 0 <= i < |more| ==> OtherKind(more[i])
    requires var c := Run(NOTHING_YET, events); Concat(chunks) == c.text + SnapshotText(more, c.peers)
    requires Fits("", chunks, limit)
    ensures var read := ReadLines(others, View([], rest), Feed("", chunks, limit).0).0;
      var heard := ListenAll(Heard(0, []), events);
      Reflects(OfRequest(read.peers, heard.running), heard.answers)
  {
    hide Reflects, Feed, ReadLines, OfRequest, Fits, Concat, SnapshotText, OtherKind;
    NothingListed();
    RunReflects(NOTHING_YET, Heard(0, []), events);
    RunningListShown(others, rest, Run(NOTHING_YET, events), events, more, chunks, limit);
  }
}
