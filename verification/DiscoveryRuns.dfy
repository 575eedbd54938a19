/**
 A discovery from end to end: the core's list as it grows, every snapshot it prints with lines of
 other kinds in front, any cutting of the whole output, and the list of the user interface.
 */
module DiscoveryRuns {
  import opened Basics
  import opened TextCodec
  import opened LineBuffers
  import opened Telemetry

  // ----- any lines -----

  /** The peers that lines report, whatever stands between them. */
  function PeersAmong(lines: seq<string>): seq<DiscoveryPeer> {
    if lines == [] then []
    else
      match ParsePeer(lines[0])
      case None => PeersAmong(lines[1..])
      case Some(peer) => [peer] + PeersAmong(lines[1..])
  }

  function UpsertAll(into: seq<DiscoveryPeer>, peers: seq<DiscoveryPeer>): seq<DiscoveryPeer>
    decreases |peers|
  {
    if peers == [] then into else UpsertAll(Upsert(into, peers[0]), peers[1..])
  }

  /** Reading any lines is taking in the peers among them; everything else is ignored. */
  lemma {:induction false} AbsorbedPeers(into: seq<DiscoveryPeer>, lines: seq<string>)
    ensures AbsorbAll(into, lines) == UpsertAll(into, PeersAmong(lines))
    decreases |lines|
  {
    hide ParsePeer, Upsert;
    if lines != [] {
      AbsorbedPeers(Absorb(into, lines[0]), lines[1..]);
    }
  }

  /** The keys of the one list are the first keys of the other. */
  predicate KeysLead(a: seq<DiscoveryPeer>, b: seq<DiscoveryPeer>) {
    |a| <= |b| && forall i :: 0 <= i < |a| ==> SameKey(a[i], b[i])
  }

  lemma {:induction false} UpsertAllFrom(done: seq<DiscoveryPeer>, before: seq<DiscoveryPeer>, todo: seq<DiscoveryPeer>)
    requires KeysLead(before, todo) && DistinctKeys(done + todo)
    ensures UpsertAll(done + before, todo) == done + todo
    decreases |todo|
  {
    hide Upsert;
    if todo == [] {
      assert before == [];
    } else {
      var peer, all := todo[0], done + todo;
      forall j | 0 <= j < |done| ensures !SameKey(done[j], peer) {
        assert all[j] == done[j] && all[|done|] == peer;
      }
      var rest := if before == [] then [] else before[1..];
      if before == [] {
        assert done + before == done;
        UpsertNew(done, peer);
      } else {
        assert forall j :: 0 <= j < |done| ==> (done + before)[j] == done[j];
        UpsertAt(done + before, peer, |done|);
      }
      assert Upsert(done + before, peer) == done + [peer] + rest;
      assert done + [peer] + todo[1..] == all;
      UpsertAllFrom(done + [peer], rest, todo[1..]);
    }
  }

  /** A list whose keys are the first ones of another becomes that other list. */
  lemma UpsertAllLeads(into: seq<DiscoveryPeer>, peers: seq<DiscoveryPeer>)
    requires KeysLead(into, peers) && DistinctKeys(peers)
    ensures UpsertAll(into, peers) == peers
  {
    assert [] + into == into && [] + peers == peers;
    UpsertAllFrom([], into, peers);
  }

  // ----- one request among all -----

  /** What a dialog shows: the peers of its own request. */
  function OfRequest(peers: seq<DiscoveryPeer>, requestId: nat): seq<DiscoveryPeer> {
    if peers == [] then []
    else if peers[0].requestId == requestId then [peers[0]] + OfRequest(peers[1..], requestId)
    else OfRequest(peers[1..], requestId)
  }

  lemma {:induction false} OfRequestUpsert(into: seq<DiscoveryPeer>, peer: DiscoveryPeer, requestId: nat)
    ensures OfRequest(Upsert(into, peer), requestId) ==
      if peer.requestId == requestId then Upsert(OfRequest(into, requestId), peer) else OfRequest(into, requestId)
  {
    if into == [] {
      assert [peer][1..] == [];
    } else {
      var first, rest := into[0], into[1..];
      OfRequestUpsert(rest, peer, requestId);
      assert ([first] + OfRequest(rest, requestId))[1..] == OfRequest(rest, requestId);
      if SameKey(first, peer) {
        assert ([peer] + rest)[1..] == rest;
      } else {
        assert ([first] + Upsert(rest, peer))[1..] == Upsert(rest, peer);
      }
    }
  }

  lemma {:induction false} OfRequestUpsertAll(into: seq<DiscoveryPeer>, peers: seq<DiscoveryPeer>, running: nat,
                                              requestId: nat)
    requires forall i :: 0 <= i < |peers| ==> peers[i].requestId == running
    ensures OfRequest(UpsertAll(into, peers), requestId) ==
      if requestId == running then UpsertAll(OfRequest(into, requestId), peers) else OfRequest(into, requestId)
    decreases |peers|
  {
    hide Upsert, OfRequest;
    if peers != [] {
      OfRequestUpsert(into, peers[0], requestId);
      OfRequestUpsertAll(Upsert(into, peers[0]), peers[1..], running, requestId);
    }
  }

  // ----- one snapshot -----

  /** A record of another kind; every line of a snapshot but the discovered peers is one. */
  predicate OtherKind(record: seq<string>) {
    record != [] && (|record| >= 2 ==> record[0] != PeerKind())
  }

  /** The text of one snapshot: records of other kinds, then one per discovered peer. */
  function SnapshotText(others: seq<seq<string>>, peers: seq<DiscoveryPeer>): string {
    Print(others) + PeerText(peers)
  }

  function PeerRecords(peers: seq<DiscoveryPeer>): seq<seq<string>> {
    seq(|peers|, i requires 0 <= i < |peers| => PeerFields(peers[i]))
  }

  lemma {:induction false} PeerTextPrints(peers: seq<DiscoveryPeer>)
    ensures PeerText(peers) == Print(PeerRecords(peers))
  {
    hide PeerFields, Record;
    if peers != [] {
      PeerTextPrints(peers[1..]);
      assert PeerRecords(peers)[1..] == PeerRecords(peers[1..]);
    }
  }

  lemma {:induction false} AbsorbPrinted(into: seq<DiscoveryPeer>, peers: seq<DiscoveryPeer>, lines: seq<string>)
    requires |lines| == |peers|
    requires forall i :: 0 <= i < |peers| ==> Printable(peers[i]) && lines[i] == Record(PeerFields(peers[i]))
    ensures AbsorbAll(into, lines) == UpsertAll(into, peers)
    decreases |peers|
  {
    hide ParsePeer, PeerFields, Record, Upsert;
    if peers != [] {
      PeerRoundTrip(peers[0]);
      AbsorbPrinted(Upsert(into, peers[0]), peers[1..], lines[1..]);
    }
  }

  lemma {:induction false} AbsorbOthers(into: seq<DiscoveryPeer>, others: seq<seq<string>>, lines: seq<string>)
    requires |lines| == |others|
    requires forall i :: 0 <= i < |others| ==> OtherKind(others[i]) && lines[i] == Record(others[i])
    ensures AbsorbAll(into, lines) == into
    decreases |others|
  {
    hide PeerOf, IsPeerLine, Record, Upsert;
    if others != [] {
      RecordKind(others[0]);
      AbsorbOthers(into, others[1..], lines[1..]);
    }
  }

  lemma AbsorbSnapshot(into: seq<DiscoveryPeer>, others: seq<seq<string>>, peers: seq<DiscoveryPeer>)
    requires forall i :: 0 <= i < |others| ==> OtherKind(others[i])
    requires forall i :: 0 <= i < |peers| ==> Printable(peers[i])
    ensures AbsorbAll(into, Lines(SnapshotText(others, peers))) == UpsertAll(into, peers)
    ensures Rest(SnapshotText(others, peers)) == ""
  {
    hide AbsorbAll, UpsertAll, Lines, Rest, Print, PeerText, PeerFields, Record, PeerKind;
    forall i | 0 <= i < |peers| ensures PeerRecords(peers)[i] != [] {
      PeerFieldsStart(peers[i]);
    }
    var front, back := Lines(Print(others)), Lines(PeerText(peers));
    PeerTextPrints(peers);
    PrintedLines(others);
    PrintedLines(PeerRecords(peers));
    CarriedOver(Print(others), PeerText(peers));
    assert "" + PeerText(peers) == PeerText(peers);
    AbsorbConcat(into, front, back);
    AbsorbOthers(into, others, front);
    AbsorbPrinted(into, peers, back);
  }

  // ----- runs of the core -----

  datatype Event =
    | Begins(requestId: nat)
    | Finds(peer: DiscoveryPeer)
    | Prints(others: seq<seq<string>>)

  /** `text` is all output so far, `printed` the list printed last for each request, `used` the requests so far. */
  datatype Core = Core(
    requestId: nat, peers: seq<DiscoveryPeer>, text: string,
    printed: map<nat, seq<DiscoveryPeer>>, used: set<nat>)

  const NOTHING_YET := Core(0, [], "", map[], {0})

  /** Requests are new, answers come from the wire, the other lines are of other kinds. */
  predicate Enabled(c: Core, e: Event) {
    match e
    case Begins(requestId) => requestId !in c.used && requestId <= MAXIMUM_U64
    case Finds(peer) => 0 < peer.sessionId <= MAXIMUM_U64 && 0 < peer.voicePort <= MAXIMUM_PORT
    case Prints(others) => forall i :: 0 <= i < |others| ==> OtherKind(others[i])
  }

  function Next(c: Core, e: Event): Core {
    match e
    case Begins(requestId) => c.(requestId := requestId, peers := [], used := c.used + {requestId})
    case Finds(peer) => c.(peers := Added(c.requestId, c.peers, peer))
    case Prints(others) =>
      c.(text := c.text + SnapshotText(others, c.peers), printed := c.printed[c.requestId := c.peers])
  }

  predicate CanRun(c: Core, events: seq<Event>)
    decreases |events|
  {
    events == [] || (Enabled(c, events[0]) && CanRun(Next(c, events[0]), events[1..]))
  }

  function Run(c: Core, events: seq<Event>): Core
    decreases |events|
  {
    if events == [] then c else Run(Next(c, events[0]), events[1..])
  }

  /** The list printed last for a request. */
  function LastPrinted(c: Core, requestId: nat): seq<DiscoveryPeer> {
    if requestId in c.printed then c.printed[requestId] else []
  }

  predicate Sound(c: Core) {
    && c.requestId in c.used && c.requestId <= MAXIMUM_U64 && (c.requestId == 0 ==> c.peers == [])
    && DistinctKeys(c.peers)
    && (forall i :: 0 <= i < |c.peers| ==> c.peers[i].requestId == c.requestId && Printable(c.peers[i]))
    && (forall id :: id in c.printed ==> id in c.used)
    && KeysLead(LastPrinted(c, c.requestId), c.peers)
  }

  /** Reading the whole output leaves, for every request, the list printed last. */
  ghost predicate Followed(c: Core) {
    Rest(c.text) == "" && forall id: nat :: OfRequest(AbsorbAll([], Lines(c.text)), id) == LastPrinted(c, id)
  }

  lemma {:induction false} UpsertKeepsKeys(into: seq<DiscoveryPeer>, peer: DiscoveryPeer)
    ensures KeysLead(into, Upsert(into, peer))
    ensures |Upsert(into, peer)| == |into| || Upsert(into, peer) == into + [peer]
    ensures forall i :: 0 <= i < |Upsert(into, peer)| ==> Upsert(into, peer)[i] == peer || Upsert(into, peer)[i] in into
    ensures |Upsert(into, peer)| > |into| ==> forall i :: 0 <= i < |into| ==> !SameKey(into[i], peer)
  {
    if into != [] && !SameKey(into[0], peer) {
      UpsertKeepsKeys(into[1..], peer);
    }
  }

  lemma UpsertDistinct(into: seq<DiscoveryPeer>, peer: DiscoveryPeer)
    requires DistinctKeys(into)
    ensures DistinctKeys(Upsert(into, peer))
  {
    hide Upsert;
    UpsertKeepsKeys(into, peer);
    var all := Upsert(into, peer);
    forall i, j | 0 <= i < j < |all| ensures !SameKey(all[i], all[j]) {
      if j < |into| {
        assert SameKey(into[i], all[i]) && SameKey(into[j], all[j]);
      }
    }
  }

  lemma FindsKeepsSound(c: Core, peer: DiscoveryPeer)
    requires Sound(c) && Enabled(c, Finds(peer))
    ensures Sound(Next(c, Finds(peer)))
  {
    hide Upsert, KnowsContact;
    UpsertKeepsKeys(c.peers, peer);
    UpsertDistinct(c.peers, peer);
  }

  lemma NextKeepsSound(c: Core, e: Event)
    requires Sound(c) && Enabled(c, e)
    ensures Sound(Next(c, e))
  {
    hide Added, Printable, SnapshotText;
    match e
    case Begins(_) =>
    case Finds(peer) => FindsKeepsSound(c, peer);
    case Prints(_) =>
  }

  lemma PrintsFollowed(c: Core, others: seq<seq<string>>)
    requires Sound(c) && Followed(c) && Enabled(c, Prints(others))
    ensures Followed(Next(c, Prints(others)))
  {
    hide AbsorbAll, UpsertAll, OfRequest, Lines, Rest, SnapshotText, Printable;
    var more, t := SnapshotText(others, c.peers), Next(c, Prints(others));
    var shown := AbsorbAll([], Lines(c.text));
    CarriedOver(c.text, more);
    assert "" + more == more;
    AbsorbConcat([], Lines(c.text), Lines(more));
    AbsorbSnapshot(shown, others, c.peers);
    UpsertAllLeads(LastPrinted(c, c.requestId), c.peers);
    forall id: nat ensures OfRequest(AbsorbAll([], Lines(t.text)), id) == LastPrinted(t, id) {
      OfRequestUpsertAll(shown, c.peers, c.requestId, id);
    }
  }

  lemma {:induction false} RunKeeps(c: Core, events: seq<Event>)
    requires Sound(c) && Followed(c) && CanRun(c, events)
    ensures Sound(Run(c, events)) && Followed(Run(c, events))
    decreases |events|
  {
    hide Sound, Enabled, AbsorbAll, OfRequest, Lines, Rest, SnapshotText, Added;
    if events != [] {
      NextKeepsSound(c, events[0]);
      if events[0].Prints? {
        PrintsFollowed(c, events[0].others);
      }
      RunKeeps(Next(c, events[0]), events[1..]);
    }
  }

  lemma NothingFollowed()
    ensures Sound(NOTHING_YET) && Followed(NOTHING_YET)
  {
    FirstLine("", "");
  }

  /**
   Over every run of the core, with any number of discoveries, answers and snapshots, lines of
   other kinds in every snapshot and whatever their branches do with them, and over any cutting
   of the output into chunks that fit: for every request the user interface ends up with exactly
   the list printed last for it, in that order, and nothing stays behind in the line buffer.
   */
  lemma DiscoveryDelivered<T>(others: (T, string) -> Option<T>, rest: T, events: seq<Event>,
                              chunks: seq<string>, limit: nat, requestId: nat)
    requires CanRun(NOTHING_YET, events)
    requires Concat(chunks) == Run(NOTHING_YET, events).text && Fits("", chunks, limit)
    ensures var (lines, left) := Feed("", chunks, limit);
      && OfRequest(ReadLines(others, View([], rest), lines).0.peers, requestId) ==
           LastPrinted(Run(NOTHING_YET, events), requestId)
      && left == ""
  {
    hide Lines, Rest, AbsorbAll, OfRequest, Run, CanRun, Concat, Fits, Feed, ReadLines;
    NothingFollowed();
    RunKeeps(NOTHING_YET, events);
    FragmentationInvisible("", chunks, limit);
    assert "" + Concat(chunks) == Concat(chunks);
    PeersRead(others, View([], rest), Feed("", chunks, limit).0);
  }

  /** Right after a snapshot of the running discovery was read, its dialog shows the core's own list. */
  lemma RunningListShown<T>(others: (T, string) -> Option<T>, rest: T, c: Core, events: seq<Event>,
                            more: seq<seq<string>>, chunks: seq<string>, limit: nat)
    requires CanRun(NOTHING_YET, events) && c == Run(NOTHING_YET, events)
    requires forall i :: 0 <= i < |more| ==> OtherKind(more[i])
    requires Concat(chunks) == c.text + SnapshotText(more, c.peers) && Fits("", chunks, limit)
    ensures OfRequest(ReadLines(others, View([], rest), Feed("", chunks, limit).0).0.peers, c.requestId) == c.peers
  {
    hide Lines, Rest, AbsorbAll, OfRequest, Run, CanRun, Concat, Fits, Feed, ReadLines, SnapshotText;
    NothingFollowed();
    RunKeeps(NOTHING_YET, events);
    PrintsFollowed(c, more);
    FragmentationInvisible("", chunks, limit);
    assert "" + Concat(chunks) == Concat(chunks);
    PeersRead(others, View([], rest), Feed("", chunks, limit).0);
  }
}
