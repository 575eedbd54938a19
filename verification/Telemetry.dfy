/**
 The telemetry pipe between the core and the user interface: discovered peers as the core
 prints them (src/core/telemetry_snapshot.cpp), any fragmentation in between, and the parser
 of the other end (src/gui/telemetry_protocol.cpp).
 */
module Telemetry {
  import opened Basics
  import opened TextCodec
  import opened LineBuffers

  const MAXIMUM_U64: nat := 0xffff_ffff_ffff_ffff
  const MAXIMUM_PORT: nat := 0xffff

  datatype DiscoveryPeer = DiscoveryPeer(
    requestId: nat, sessionId: nat, ip: string, voicePort: nat, alreadyContact: bool, computerName: string)

  // ----- the writer -----

  /** The core's list of the peers that answered the discovery now running. */
  class DiscoveryResults {
    var requestId: nat
    var peers: seq<DiscoveryPeer>

    /** All entries answer the running request, one per session. */
    ghost predicate Valid()
      reads this
    {
      DistinctKeys(peers) && forall i :: 0 <= i < |peers| ==> peers[i].requestId == requestId
    }

    constructor ()
      ensures Valid() && requestId == 0 && peers == []
    {
      requestId, peers := 0, [];
    }

    method BeginDiscovery(requestId: nat)
      modifies this
      ensures Valid() && this.requestId == requestId && peers == []
    {
      this.requestId, peers := requestId, [];
    }

    /** A stale answer is dropped; a contact already known is not replaced by an unknown one. */
    method AddDiscoveredPeer(peer: DiscoveryPeer)
      requires Valid()
      modifies this`peers
      ensures Valid() && peers == Added(requestId, old(peers), peer)
    {
      if peer.requestId == 0 || peer.requestId != requestId {
        return;
      }
      var i := 0;
      while i < |peers| && peers[i].sessionId != peer.sessionId
        invariant i <= |peers| && forall j :: 0 <= j < i ==> !SameKey(peers[j], peer)
      {
        i := i + 1;
      }
      if i == |peers| {
        UpsertNew(peers, peer);
        peers := peers + [peer];
      } else if !peers[i].alreadyContact || peer.alreadyContact {
        UpsertAt(peers, peer, i);
        peers := peers[i := peer];
      }
    }
  }

  predicate KnowsContact(peers: seq<DiscoveryPeer>, peer: DiscoveryPeer) {
    exists i :: 0 <= i < |peers| && SameKey(peers[i], peer) && peers[i].alreadyContact
  }

  /** The core's list after an answer to the running request, or to another one. */
  function Added(requestId: nat, peers: seq<DiscoveryPeer>, peer: DiscoveryPeer): seq<DiscoveryPeer> {
    if peer.requestId == 0 || peer.requestId != requestId then peers
    else if KnowsContact(peers, peer) && !peer.alreadyContact then peers
    else Upsert(peers, peer)
  }

  lemma {:induction false} UpsertAt(into: seq<DiscoveryPeer>, peer: DiscoveryPeer, i: nat)
    requires i < |into| && SameKey(into[i], peer) && forall j :: 0 <= j < i ==> !SameKey(into[j], peer)
    ensures Upsert(into, peer) == into[i := peer]
  {
    if i > 0 {
      UpsertAt(into[1..], peer, i - 1);
    }
  }

  function PeerKind(): string {
    "discovery_peer"
  }

  function PeerFields(peer: DiscoveryPeer): seq<string> {
    [PeerKind(), Digits(peer.requestId), Digits(peer.sessionId), peer.ip, Digits(peer.voicePort),
     FlagText(peer.alreadyContact), peer.computerName]
  }

  function PeerText(peers: seq<DiscoveryPeer>): string {
    if peers == [] then "" else Record(PeerFields(peers[0])) + "\n" + PeerText(peers[1..])
  }

  /** The loop of `serialize` over the discovered peers; only the two free-text fields need escaping. */
  method SerializePeers(peers: seq<DiscoveryPeer>) returns (text: string)
    ensures text == PeerText(peers)
  {
    hide PeerText, PeerFields, Record;
    text := "";
    var i := 0;
    assert peers[0..] == peers;
    while i < |peers|
      invariant i <= |peers| && PeerText(peers) == text + PeerText(peers[i..])
    {
      var line := SerializePeer(peers[i]);
      PeerTextAt(peers, i);
      text := text + line + "\n";
      i := i + 1;
    }
    PeerTextEnd();
    assert peers[i..] == [];
  }

  lemma PeerTextAt(peers: seq<DiscoveryPeer>, i: nat)
    requires i < |peers|
    ensures PeerText(peers[i..]) == Record(PeerFields(peers[i])) + "\n" + PeerText(peers[i + 1..])
  {
    hide Record, PeerFields;
    assert peers[i..][1..] == peers[i + 1..];
  }

  lemma PeerTextEnd()
    ensures PeerText([]) == ""
  {
  }

  method SerializePeer(peer: DiscoveryPeer) returns (line: string)
    ensures line == Record(PeerFields(peer))
    ensures line == PeerKind() + "\t" + Digits(peer.requestId) + "\t" + Digits(peer.sessionId) + "\t" +
      Escape(peer.ip) +
      "\t" + Digits(peer.voicePort) + "\t" + FlagText(peer.alreadyContact) + "\t" + Escape(peer.computerName)
  {
    hide PeerKind, Digits, Escape, Join, FlagText, PeerFields;
    var ip := EscapeField(peer.ip);
    var name := EscapeField(peer.computerName);
    ghost var f := LineFields(peer);
    EscapedFields(peer);
    JoinOne(f);
    line := PeerKind();
    line := line + "\t" + Digits(peer.requestId);
    JoinSnoc(f, 1);
    line := line + "\t" + Digits(peer.sessionId);
    JoinSnoc(f, 2);
    line := line + "\t" + ip;
    JoinSnoc(f, 3);
    line := line + "\t" + Digits(peer.voicePort);
    JoinSnoc(f, 4);
    line := line + "\t" + FlagText(peer.alreadyContact);
    JoinSnoc(f, 5);
    line := line + "\t" + name;
    JoinSnoc(f, 6);
    assert f[..7] == f;
  }

  lemma JoinOne(f: seq<string>)
    requires f != []
    ensures Join(f[..1], '\t') == f[0]
  {
  }

  lemma {:induction false} JoinSnoc(f: seq<string>, n: nat)
    requires 0 < n < |f|
    ensures Join(f[..n + 1], '\t') == Join(f[..n], '\t') + "\t" + f[n]
    decreases n
  {
    if n == 1 {
      assert f[..2][1..] == [f[1]];
    } else {
      JoinSnoc(f[1..], n - 1);
      assert f[..n + 1][1..] == f[1..][..n] && f[..n][1..] == f[1..][..n - 1];
      assert Join(f[..n + 1], '\t') == f[0] + "\t" + Join(f[1..][..n], '\t');
      assert Join(f[..n], '\t') == f[0] + "\t" + Join(f[1..][..n - 1], '\t');
    }
  }

  lemma {:induction false} PlainUnchanged(s: string)
    requires forall i :: 0 <= i < |s| ==> s[i] != '\\' && s[i] != '\t' && s[i] != '\r' && s[i] != '\n'
    ensures Escape(s) == s
  {
    if s != "" {
      PlainUnchanged(s[1..]);
    }
  }

  lemma NumberUnchanged(n: nat)
    ensures Escape(Digits(n)) == Digits(n)
  {
    DigitsRoundTrip(n);
    PlainUnchanged(Digits(n));
  }

  /** The fields between the tabs. */
  function LineFields(peer: DiscoveryPeer): seq<string> {
    [PeerKind(), Digits(peer.requestId), Digits(peer.sessionId), Escape(peer.ip), Digits(peer.voicePort),
     FlagText(peer.alreadyContact), Escape(peer.computerName)]
  }

  lemma KindUnchanged()
    ensures Escape(PeerKind()) == PeerKind()
  {
    PlainUnchanged(PeerKind());
  }

  lemma FlagUnchanged(flag: bool)
    ensures Escape(FlagText(flag)) == FlagText(flag)
  {
    PlainUnchanged(FlagText(flag));
  }

  lemma EscapedFields(peer: DiscoveryPeer)
    ensures EscapeAll(PeerFields(peer)) == LineFields(peer)
  {
    hide Digits, Escape, PeerKind, FlagText;
    KindUnchanged();
    FlagUnchanged(peer.alreadyContact);
    NumberUnchanged(peer.requestId);
    NumberUnchanged(peer.sessionId);
    NumberUnchanged(peer.voicePort);
  }

  // ----- the parser -----

  /** `parse_number` for an unsigned type: a negative number wraps as the standard library does. */
  function ParseUnsigned(field: string, maximum: nat): Option<nat> {
    match ParseInteger(field)
    case None => None
    case Some(v) =>
      if 0 <= v <= maximum then Some(v)
      else if v < 0 && v + maximum >= 0 then Some(maximum + 1 + v)
      else None
  }

  function ParseContactFlag(field: string): Option<bool> {
    match ParseInteger(field)
    case Some(v) => if v == 0 then Some(false) else if v == 1 then Some(true) else None
    case None => None
  }

  predicate IsPeerLine(line: string) {
    PeerKind() + "\t" <= line
  }

  /** The `discovery_peer` branch of `parse_line`; a malformed line gives nothing. */
  function ParsePeer(line: string): Option<DiscoveryPeer> {
    if IsPeerLine(line) then PeerOf(Split(line, '\t')) else None
  }

  function PeerOf(fields: seq<string>): Option<DiscoveryPeer> {
    if |fields| != 7 then None
    else
      var requestId := ParseUnsigned(fields[1], MAXIMUM_U64);
      var sessionId := ParseUnsigned(fields[2], MAXIMUM_U64);
      var port := ParseUnsigned(fields[4], 0xffff_ffff);
      var contact := ParseContactFlag(fields[5]);
      if requestId.None? || requestId.value == 0 || sessionId.None? || sessionId.value == 0 ||
         port.None? || port.value == 0 || port.value > MAXIMUM_PORT || contact.None?
      then None
      else
        Some(DiscoveryPeer(requestId.value, sessionId.value, Unescape(fields[3]), port.value, contact.value,
                           Unescape(fields[6])))
  }

  predicate SameKey(a: DiscoveryPeer, b: DiscoveryPeer) {
    a.requestId == b.requestId && a.sessionId == b.sessionId
  }

  /** Replaces the entry of the same request and session, or appends. */
  function Upsert(peers: seq<DiscoveryPeer>, peer: DiscoveryPeer): seq<DiscoveryPeer> {
    if peers == [] then [peer]
    else if SameKey(peers[0], peer) then [peer] + peers[1..]
    else [peers[0]] + Upsert(peers[1..], peer)
  }

  predicate DistinctKeys(peers: seq<DiscoveryPeer>) {
    forall i, j :: 0 <= i < j < |peers| ==> !SameKey(peers[i], peers[j])
  }

  lemma {:induction false} UpsertNew(into: seq<DiscoveryPeer>, peer: DiscoveryPeer)
    requires forall i :: 0 <= i < |into| ==> !SameKey(into[i], peer)
    ensures Upsert(into, peer) == into + [peer]
  {
    if into != [] {
      UpsertNew(into[1..], peer);
    }
  }

  function Absorb(peers: seq<DiscoveryPeer>, line: string): seq<DiscoveryPeer> {
    match ParsePeer(line)
    case None => peers
    case Some(peer) => Upsert(peers, peer)
  }

  function AbsorbAll(peers: seq<DiscoveryPeer>, lines: seq<string>): seq<DiscoveryPeer>
    decreases |lines|
  {
    if lines == [] then peers else AbsorbAll(Absorb(peers, lines[0]), lines[1..])
  }

  /** What the parser knows: the discovered peers, and `rest`, which the branches for other lines keep. */
  datatype View<T> = View(peers: seq<DiscoveryPeer>, rest: T)

  /**
   One line: what is known then, and whether the line changed anything. `others` is what the
   branches for lines of other kinds do with their part; `None` means the line was not taken.
   */
  function ReadLine<T>(others: (T, string) -> Option<T>, view: View<T>, line: string): (View<T>, bool) {
    if IsPeerLine(line) then (view.(peers := Absorb(view.peers, line)), ParsePeer(line).Some?)
    else
      match others(view.rest, line)
      case None => (view, false)
      case Some(rest) => (view.(rest := rest), true)
  }

  function ReadLines<T>(others: (T, string) -> Option<T>, view: View<T>, lines: seq<string>): (View<T>, bool)
    decreases |lines|
  {
    if lines == [] then (view, false)
    else
      var (next, changed) := ReadLine(others, view, lines[0]);
      var (last, more) := ReadLines(others, next, lines[1..]);
      (last, changed || more)
  }

  class TelemetryParser<T> {
    const lines: LineBuffer
    const others: (T, string) -> Option<T>
    var discoveryPeers: seq<DiscoveryPeer>
    var rest: T
    var revision: nat

    ghost predicate Valid()
      reads this, lines
    {
      lines.Valid() && '\n' !in lines.Pending()
    }

    ghost function Known(): View<T>
      reads this
    {
      View(discoveryPeers, rest)
    }

    constructor (limit: nat, others: (T, string) -> Option<T>, rest: T)
      ensures Valid() && fresh(lines) && Known() == View([], rest) && revision == 0 && lines.Pending() == ""
      ensures lines.maximumPendingBytes == (if limit < 1 then 1 else limit) && this.others == others
    {
      lines := new LineBuffer(limit);
      this.others, this.rest := others, rest;
      discoveryPeers, revision := [], 0;
    }

    /** Takes one chunk: reads every line it completes; the revision moves once if any of them changed anything. */
    method Append(bytes: string) returns (changed: bool)
      requires Valid()
      modifies this, lines
      ensures Valid()
      ensures var text := Appended(old(lines.Pending()), bytes, lines.maximumPendingBytes);
        && (Known(), changed) == ReadLines(others, old(Known()), Lines(text))
        && lines.Pending() == Rest(text)
        && revision == old(revision) + (if changed then 1 else 0)
    {
      hide ReadLine, Appended, Lines, Rest;
      lines.Append(bytes);
      ghost var text := lines.Pending();
      ghost var seen: seq<string> := [];
      changed := false;
      var found, line := lines.Next();
      while found
        invariant lines.Valid() && revision == old(revision)
        invariant found ==> Lines(text) == seen + [line] + Lines(lines.Pending())
        invariant !found ==> Lines(text) == seen + Lines(lines.Pending()) && '\n' !in lines.Pending()
        invariant Rest(text) == Rest(lines.Pending())
        invariant (Known(), changed) == ReadLines(others, old(Known()), seen)
        decreases |lines.Pending()|, if found then 1 else 0
      {
        ReadLinesSnoc(others, old(Known()), seen, line);
        var parsed := ParseLine(line);
        changed := parsed || changed;
        seen := seen + [line];
        found, line := lines.Next();
      }
      FirstLine(lines.Pending(), "");
      assert seen + [] == seen && '\n' !in lines.Pending();
      if changed {
        revision := revision + 1;
      }
    }

    /** The read loop: every chunk the pipe delivers, one after the other. */
    method AppendAll(chunks: seq<string>)
      requires Valid()
      modifies this, lines
      ensures Valid()
      ensures var (read, left) := Feed(old(lines.Pending()), chunks, lines.maximumPendingBytes);
        Known() == ReadLines(others, old(Known()), read).0 && lines.Pending() == left
    {
      hide ReadLines, Feed, Appended, Rest, Lines;
      ghost var limit := lines.maximumPendingBytes;
      ghost var all := Feed(lines.Pending(), chunks, limit);
      ghost var read: seq<string> := [];
      var i := 0;
      assert chunks[0..] == chunks;
      ReadNothing(others, Known());
      while i < |chunks|
        invariant i <= |chunks| && Valid() && Known() == ReadLines(others, old(Known()), read).0
        invariant all.0 == read + Feed(lines.Pending(), chunks[i..], limit).0
        invariant all.1 == Feed(lines.Pending(), chunks[i..], limit).1
      {
        ghost var text := Appended(lines.Pending(), chunks[i], limit);
        FeedAt(lines.Pending(), chunks, i, limit);
        ReadLinesConcat(others, old(Known()), read, Lines(text));
        var changed := Append(chunks[i]);
        read := read + Lines(text);
        i := i + 1;
      }
      FeedEnd(lines.Pending(), limit);
      assert chunks[i..] == [] && read + [] == read;
    }

    /** `parse_line`: the branch for discovered peers written out, any other line left to `others`. */
    method ParseLine(line: string) returns (changed: bool)
      modifies this`discoveryPeers, this`rest
      ensures (Known(), changed) == ReadLine(others, old(Known()), line)
    {
      hide Split, ParseUnsigned, ParseContactFlag, Unescape, Upsert;
      if !(PeerKind() + "\t" <= line) {
        match others(rest, line) {
          case None => return false;
          case Some(next) =>
            rest := next;
            return true;
        }
      }
      var fields := SplitFields(line, '\t');
      if |fields| != 7 {
        return false;
      }
      var requestId := ParseUnsigned(fields[1], MAXIMUM_U64);
      if requestId.None? || requestId.value == 0 {
        return false;
      }
      var sessionId := ParseUnsigned(fields[2], MAXIMUM_U64);
      if sessionId.None? || sessionId.value == 0 {
        return false;
      }
      var port := ParseUnsigned(fields[4], 0xffff_ffff);
      if port.None? || port.value == 0 || port.value > MAXIMUM_PORT {
        return false;
      }
      var contact := ParseContactFlag(fields[5]);
      if contact.None? {
        return false;
      }
      var ip := UnescapeField(fields[3]);
      var name := UnescapeField(fields[6]);
      Store(DiscoveryPeer(requestId.value, sessionId.value, ip, port.value, contact.value, name));
      changed := true;
    }

    method Store(peer: DiscoveryPeer)
      modifies this`discoveryPeers
      ensures discoveryPeers == Upsert(old(discoveryPeers), peer)
    {
      var i := 0;
      while i < |discoveryPeers| && !SameKey(discoveryPeers[i], peer)
        invariant i <= |discoveryPeers| && discoveryPeers == old(discoveryPeers)
        invariant Upsert(discoveryPeers, peer) == discoveryPeers[..i] + Upsert(discoveryPeers[i..], peer)
      {
        assert discoveryPeers[i..][1..] == discoveryPeers[i + 1..];
        i := i + 1;
      }
      if i == |discoveryPeers| {
        discoveryPeers := discoveryPeers + [peer];
      } else {
        assert discoveryPeers[i..][1..] == discoveryPeers[i + 1..];
        discoveryPeers := discoveryPeers[i := peer];
      }
    }
  }

  lemma ReadNothing<T>(others: (T, string) -> Option<T>, view: View<T>)
    ensures ReadLines(others, view, []) == (view, false)
  {
  }

  lemma {:induction false} ReadLinesConcat<T>(others: (T, string) -> Option<T>, view: View<T>, a: seq<string>,
                                              b: seq<string>)
    ensures var (middle, changed) := ReadLines(others, view, a);
      var (last, more) := ReadLines(others, middle, b);
      ReadLines(others, view, a + b) == (last, changed || more)
    decreases |a|
  {
    hide ReadLine;
    if a == [] {
      assert a + b == b;
    } else {
      assert (a + b)[1..] == a[1..] + b;
      ReadLinesConcat(others, ReadLine(others, view, a[0]).0, a[1..], b);
    }
  }

  lemma ReadLinesSnoc<T>(others: (T, string) -> Option<T>, view: View<T>, lines: seq<string>, line: string)
    ensures var (middle, changed) := ReadLines(others, view, lines);
      var (last, more) := ReadLine(others, middle, line);
      ReadLines(others, view, lines + [line]) == (last, changed || more)
  {
    hide ReadLine;
    ReadLinesConcat(others, view, lines, [line]);
    assert [line][1..] == [];
  }

  /** Lines of other kinds neither add nor change a discovered peer, whatever their branches do. */
  lemma {:induction false} PeersRead<T>(others: (T, string) -> Option<T>, view: View<T>, lines: seq<string>)
    ensures ReadLines(others, view, lines).0.peers == AbsorbAll(view.peers, lines)
    decreases |lines|
  {
    hide PeerOf, Upsert, IsPeerLine;
    if lines != [] {
      PeersRead(others, ReadLine(others, view, lines[0]).0, lines[1..]);
    }
  }

  lemma {:induction false} AbsorbConcat(peers: seq<DiscoveryPeer>, a: seq<string>, b: seq<string>)
    ensures AbsorbAll(peers, a + b) == AbsorbAll(AbsorbAll(peers, a), b)
    decreases |a|
  {
    hide Absorb;
    if a == [] {
      assert a + b == b;
    } else {
      assert (a + b)[1..] == a[1..] + b;
      AbsorbConcat(Absorb(peers, a[0]), a[1..], b);
    }
  }

  // ----- from writer to parser through any fragmentation -----

  /** Feeding chunks one after the other, draining after each: the lines read, and what stays pending. */
  function Feed(pending: string, chunks: seq<string>, limit: nat): (seq<string>, string)
    decreases |chunks|
  {
    if chunks == [] then ([], pending)
    else
      var text := Appended(pending, chunks[0], limit);
      var (lines, rest) := Feed(Rest(text), chunks[1..], limit);
      (Lines(text) + lines, rest)
  }

  lemma FeedAt(pending: string, chunks: seq<string>, i: nat, limit: nat)
    requires i < |chunks|
    ensures var text := Appended(pending, chunks[i], limit);
      && Feed(pending, chunks[i..], limit).0 == Lines(text) + Feed(Rest(text), chunks[i + 1..], limit).0
      && Feed(pending, chunks[i..], limit).1 == Feed(Rest(text), chunks[i + 1..], limit).1
  {
    assert chunks[i..][1..] == chunks[i + 1..];
  }

  lemma FeedEnd(pending: string, limit: nat)
    ensures Feed(pending, [], limit) == ([], pending)
  {
  }

  function Concat(chunks: seq<string>): string {
    if chunks == [] then "" else chunks[0] + Concat(chunks[1..])
  }

  /** At every chunk, what is pending and the chunk fit the limit together. */
  predicate Fits(pending: string, chunks: seq<string>, limit: nat)
    decreases |chunks|
  {
    chunks == [] || (|pending| + |chunks[0]| <= limit && Fits(Rest(pending + chunks[0]), chunks[1..], limit))
  }

  /** Fragmentation is invisible: any cutting of a text into chunks that fit reads as the lines of the text. */
  lemma {:induction false} FragmentationInvisible(pending: string, chunks: seq<string>, limit: nat)
    requires Fits(pending, chunks, limit) && '\n' !in pending
    ensures Feed(pending, chunks, limit) == (Lines(pending + Concat(chunks)), Rest(pending + Concat(chunks)))
    decreases |chunks|
  {
    if chunks == [] {
      assert pending + Concat(chunks) == pending;
      FirstLine(pending, "");
    } else {
      var text := pending + chunks[0];
      assert pending + Concat(chunks) == text + Concat(chunks[1..]);
      RestHasNoNewline("", text);
      CarriedOver(text, Concat(chunks[1..]));
      FragmentationInvisible(Rest(text), chunks[1..], limit);
    }
  }

  function Print(records: seq<seq<string>>): string {
    if records == [] then "" else Record(records[0]) + "\n" + Print(records[1..])
  }

  function ReadAll(lines: seq<string>): seq<seq<string>> {
    seq(|lines|, i requires 0 <= i < |lines| => Fields(lines[i]))
  }

  lemma {:induction false} PrintedLines(records: seq<seq<string>>)
    requires forall i :: 0 <= i < |records| ==> records[i] != []
    ensures |Lines(Print(records))| == |records| && Rest(Print(records)) == ""
    ensures forall i :: 0 <= i < |records| ==> Lines(Print(records))[i] == Record(records[i])
  {
    if records != [] {
      PrintedLines(records[1..]);
      RecordRoundTrip(records[0]);
      hide Record;
      var head := Record(records[0]);
      FirstLine(head, Print(records[1..]));
      assert WithoutReturn(head) == head;
      forall i | 0 < i < |records| ensures Lines(Print(records))[i] == Record(records[i]) {
        assert records[i] == records[1..][i - 1];
      }
    }
  }

  /**
   Record transport: any records of any texts, printed, cut anywhere and fed through the line
   buffer, come back identical, and nothing stays behind.
   */
  lemma RecordTransport(records: seq<seq<string>>, chunks: seq<string>, limit: nat)
    requires forall i :: 0 <= i < |records| ==> records[i] != []
    requires Concat(chunks) == Print(records) && Fits("", chunks, limit)
    ensures ReadAll(Feed("", chunks, limit).0) == records && Feed("", chunks, limit).1 == ""
  {
    FragmentationInvisible("", chunks, limit);
    assert "" + Concat(chunks) == Print(records);
    PrintedLines(records);
    forall i | 0 <= i < |records| ensures Fields(Record(records[i])) == records[i] {
      RecordRoundTrip(records[i]);
    }
  }

  predicate Printable(peer: DiscoveryPeer) {
    0 < peer.requestId <= MAXIMUM_U64 && 0 < peer.sessionId <= MAXIMUM_U64 && 0 < peer.voicePort <= MAXIMUM_PORT
  }

  /** Whatever line is read as a peer names a request, a session and a port, all within their widths. */
  lemma ParsedIsPrintable(line: string)
    requires ParsePeer(line).Some?
    ensures Printable(ParsePeer(line).value)
  {
    hide Split, ParseInteger, Unescape, IsPeerLine;
  }

  lemma PeerRoundTrip(peer: DiscoveryPeer)
    requires Printable(peer)
    ensures ParsePeer(Record(PeerFields(peer))) == Some(peer)
  {
    hide Escape, Unescape, Join, Split, Record, PeerFields, PeerKind, Digits, FlagText, ParseUnsigned, ParseContactFlag,
      IsPeerLine;
    SplitRecord(peer);
    PeerFieldsStart(peer);
    RecordKind(PeerFields(peer));
    EscapeRoundTrip(peer.ip);
    EscapeRoundTrip(peer.computerName);
    ParsedNumber(peer.requestId, MAXIMUM_U64);
    ParsedNumber(peer.sessionId, MAXIMUM_U64);
    ParsedNumber(peer.voicePort, 0xffff_ffff);
    ParsedFlag(peer.alreadyContact);
  }

  lemma SplitRecord(peer: DiscoveryPeer)
    ensures Split(Record(PeerFields(peer)), '\t') == LineFields(peer)
  {
    hide Escape, Join, Split, PeerKind, Digits, FlagText, LineFields;
    EscapedFields(peer);
    var fields := PeerFields(peer);
    forall i | 0 <= i < |fields| ensures '\t' !in EscapeAll(fields)[i] {
      EscapeRoundTrip(fields[i]);
    }
    SplitJoin(EscapeAll(fields), '\t');
  }

  lemma ParsedNumber(n: nat, maximum: nat)
    requires n <= maximum
    ensures ParseUnsigned(Digits(n), maximum) == Some(n)
  {
    ParseDigits(n);
  }

  lemma ParsedFlag(flag: bool)
    ensures ParseContactFlag(FlagText(flag)) == Some(flag)
  {
    ParseDigits(if flag then 1 else 0);
  }

  function UpsertAll(into: seq<DiscoveryPeer>, peers: seq<DiscoveryPeer>): seq<DiscoveryPeer>
    decreases |peers|
  {
    if peers == [] then into else UpsertAll(Upsert(into, peers[0]), peers[1..])
  }

  lemma PeerFieldsStart(peer: DiscoveryPeer)
    ensures |PeerFields(peer)| == 7 && PeerFields(peer)[0] == PeerKind()
  {
    hide PeerKind, Digits, FlagText;
  }

  /** A printed record is a peer line exactly when its first field says so and is not the last one. */
  lemma RecordKind(fields: seq<string>)
    requires fields != []
    ensures IsPeerLine(Record(fields)) <==> |fields| >= 2 && fields[0] == PeerKind()
  {
    hide Escape, Unescape, Split, Join, PeerKind;
    var escaped := EscapeAll(fields);
    forall i | 0 <= i < |fields| ensures '\t' !in escaped[i] {
      EscapeRoundTrip(fields[i]);
    }
    SplitJoin(escaped, '\t');
    KindUnchanged();
    EscapeRoundTrip(fields[0]);
    EscapeRoundTrip(PeerKind());
    SplitStarts(PeerKind(), Record(fields), '\t');
  }
}
