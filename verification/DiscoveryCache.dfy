/** The reply cache of the discovery protocol (src/core/network_discovery.cpp). */
module DiscoveryCache {

  const REPLY_CACHE_TTL_MS: nat := 10_000
  const MAXIMUM_REPLY_CACHE_ENTRIES: nat := 64

  datatype Entry = Entry(sourceAddress: nat, requestId: nat, expiresAtMs: nat)

  /** An accepted request and when it was answered. */
  datatype Answer = Answer(sourceAddress: nat, requestId: nat, atMs: nat)

  predicate SameKey(a: Answer, b: Answer) {
    a.sourceAddress == b.sourceAddress && a.requestId == b.requestId
  }

  function EntryOf(a: Answer): Entry {
    Entry(a.sourceAddress, a.requestId, a.atMs + REPLY_CACHE_TTL_MS)
  }

  function EntriesOf(answers: seq<Answer>): (entries: seq<Entry>)
    ensures |entries| == |answers|
  {
    seq(|answers|, i requires 0 <= i < |answers| => EntryOf(answers[i]))
  }

  predicate InTimeOrder(history: seq<Answer>) {
    forall i, j :: 0 <= i < j < |history| ==> history[i].atMs <= history[j].atMs
  }

  predicate Expired(a: Answer, nowMs: nat) {
    a.atMs + REPLY_CACHE_TTL_MS <= nowMs
  }

  /** How many of the oldest answers have expired. */
  function Cut(history: seq<Answer>, nowMs: nat): (n: nat)
    ensures n <= |history|
  {
    if history == [] || !Expired(history[0], nowMs) then 0 else 1 + Cut(history[1..], nowMs)
  }

  /** The answers a cache of 64 entries holds at a time: the most recent ones that have not expired. */
  function From(history: seq<Answer>, nowMs: nat): (start: nat)
    ensures start <= |history|
  {
    var cut := Cut(history, nowMs);
    if |history| - cut <= MAXIMUM_REPLY_CACHE_ENTRIES then cut else |history| - MAXIMUM_REPLY_CACHE_ENTRIES
  }

  function Recent(history: seq<Answer>, nowMs: nat): seq<Answer> {
    history[From(history, nowMs)..]
  }

  lemma {:induction false} CutIsExact(history: seq<Answer>, nowMs: nat)
    requires InTimeOrder(history)
    ensures forall i :: 0 <= i < |history| ==> (Expired(history[i], nowMs) <==> i < Cut(history, nowMs))
  {
    if history != [] && Expired(history[0], nowMs) {
      CutIsExact(history[1..], nowMs);
      forall i | 0 < i < |history| ensures history[i] == history[1..][i - 1] {}
    }
  }

  lemma {:induction false} CutUnique(history: seq<Answer>, nowMs: nat, n: nat)
    requires n <= |history|
    requires forall i :: 0 <= i < |history| ==> (Expired(history[i], nowMs) <==> i < n)
    ensures Cut(history, nowMs) == n
  {
    if n > 0 {
      assert Expired(history[0], nowMs);
      forall i | 0 <= i < |history| - 1 ensures history[1..][i] == history[i + 1] {}
      CutUnique(history[1..], nowMs, n - 1);
    }
  }

  lemma {:induction false} CutGrows(history: seq<Answer>, beforeMs: nat, nowMs: nat)
    requires beforeMs <= nowMs
    ensures Cut(history, beforeMs) <= Cut(history, nowMs)
  {
    if history != [] {
      CutGrows(history[1..], beforeMs, nowMs);
    }
  }

  /** What is left after removing every expired answer, in any order. */
  function Unexpired(history: seq<Answer>, nowMs: nat): seq<Answer> {
    if history == [] then []
    else if Expired(history[0], nowMs) then Unexpired(history[1..], nowMs)
    else [history[0]] + Unexpired(history[1..], nowMs)
  }

  lemma {:induction false} UnexpiredIsSuffix(history: seq<Answer>, nowMs: nat)
    requires InTimeOrder(history)
    ensures Unexpired(history, nowMs) == history[Cut(history, nowMs)..]
  {
    if history != [] {
      UnexpiredIsSuffix(history[1..], nowMs);
      if !Expired(history[0], nowMs) {
        assert history[1..] != [] ==> !Expired(history[1..][0], nowMs);
        assert Cut(history[1..], nowMs) == 0;
      }
    }
  }

  lemma UnexpiredFrom(history: seq<Answer>, i: nat, nowMs: nat)
    requires i < |history|
    ensures EntriesOf(history)[i] == EntryOf(history[i])
    ensures EntriesOf(Unexpired(history[i..], nowMs)) ==
      (if Expired(history[i], nowMs) then [] else [EntryOf(history[i])]) + EntriesOf(Unexpired(history[i + 1..], nowMs))
  {
    assert history[i..][1..] == history[i + 1..];
  }

  lemma NoneLeft(nowMs: nat)
    ensures EntriesOf(Unexpired([], nowMs)) == []
  {
  }

  lemma SuffixInTimeOrder(history: seq<Answer>, start: nat)
    requires InTimeOrder(history) && start <= |history|
    ensures InTimeOrder(history[start..])
  {
  }

  /** Letting time pass and dropping what expired meanwhile gives what a fresh look would give. */
  lemma RecentAges(history: seq<Answer>, beforeMs: nat, nowMs: nat)
    requires InTimeOrder(history) && beforeMs <= nowMs
    ensures Unexpired(Recent(history, beforeMs), nowMs) == Recent(history, nowMs)
  {
    hide Expired, Unexpired, Cut, InTimeOrder;
    CutIsExact(history, nowMs);
    CutGrows(history, beforeMs, nowMs);
    var start, recent := From(history, beforeMs), Recent(history, beforeMs);
    var cut := Cut(history, nowMs);
    var n := if cut <= start then 0 else cut - start;
    SuffixInTimeOrder(history, start);
    UnexpiredIsSuffix(recent, nowMs);
    forall i | 0 <= i < |recent| ensures Expired(recent[i], nowMs) <==> i < n {
      assert recent[i] == history[start + i];
    }
    CutUnique(recent, nowMs, n);
    assert start + n == From(history, nowMs);
    assert history[start..][n..] == history[start + n..];
  }

  /** Keys in the cache are distinct: an answer repeats only after its entry expired or was pushed out. */
  predicate Spaced(history: seq<Answer>) {
    forall i, j :: 0 <= i < j < |history| && SameKey(history[i], history[j]) ==>
      history[j].atMs - history[i].atMs >= REPLY_CACHE_TTL_MS || j - i > MAXIMUM_REPLY_CACHE_ENTRIES
  }

  predicate Known(recent: seq<Answer>, request: Answer) {
    exists i :: 0 <= i < |recent| && SameKey(recent[i], request)
  }

  lemma AnswerKeepsSpaced(history: seq<Answer>, request: Answer)
    requires InTimeOrder(history) && Spaced(history) && !Known(Recent(history, request.atMs), request)
    requires forall i :: 0 <= i < |history| ==> history[i].atMs <= request.atMs
    ensures Spaced(history + [request]) && InTimeOrder(history + [request])
  {
    CutIsExact(history, request.atMs);
    var start, recent := From(history, request.atMs), Recent(history, request.atMs);
    assert forall i :: start <= i < |history| ==> recent[i - start] == history[i];
  }

  /** The keys of the cache at any time are distinct. */
  lemma RecentDistinct(history: seq<Answer>, nowMs: nat)
    requires InTimeOrder(history) && Spaced(history) && forall i :: 0 <= i < |history| ==> history[i].atMs <= nowMs
    ensures var recent := Recent(history, nowMs);
      forall i, j :: 0 <= i < j < |recent| ==> !SameKey(recent[i], recent[j])
  {
    CutIsExact(history, nowMs);
    var recent := Recent(history, nowMs);
    var skipped := From(history, nowMs);
    forall i, j | 0 <= i < j < |recent| ensures !SameKey(recent[i], recent[j]) {
      assert recent[i] == history[skipped + i] && recent[j] == history[skipped + j];
      assert !Expired(history[skipped + i], nowMs);
    }
  }

  /** Which answers the cache holds: those younger than 10000 ms that are among the last 64. */
  lemma RecentExactly(history: seq<Answer>, nowMs: nat)
    requires InTimeOrder(history)
    ensures forall i :: 0 <= i < |history| ==>
      (i >= From(history, nowMs) <==> nowMs - history[i].atMs < 10_000 && |history| - i <= 64)
  {
    CutIsExact(history, nowMs);
    forall i | 0 <= i < |history|
      ensures i >= From(history, nowMs) <==> nowMs - history[i].atMs < 10_000 && |history| - i <= 64
    {
      assert Expired(history[i], nowMs) <==> i < Cut(history, nowMs);
    }
  }

  lemma KnownExactly(history: seq<Answer>, request: Answer)
    requires InTimeOrder(history)
    ensures Known(Recent(history, request.atMs), request) <==>
      exists i :: 0 <= i < |history| &&
        history[i].sourceAddress == request.sourceAddress && history[i].requestId == request.requestId &&
        request.atMs - history[i].atMs < 10_000 && |history| - i <= 64
  {
    RecentExactly(history, request.atMs);
    hide InTimeOrder;
    var start, recent := From(history, request.atMs), Recent(history, request.atMs);
    hide From;
    if Known(recent, request) {
      var i :| 0 <= i < |recent| && SameKey(recent[i], request);
      assert history[start + i] == recent[i];
    }
    forall i | start <= i < |history| ensures history[i] == recent[i - start] {}
  }

  class DiscoveryReplyCache {
    var entries: seq<Entry>
    ghost var history: seq<Answer>     // every request ever accepted, in order
    ghost var lastMs: nat

    /** The cache agrees with the full history, of which it stores at most 64 entries. */
    ghost predicate Valid()
      reads this
    {
      && InTimeOrder(history) && Spaced(history)
      && (forall i :: 0 <= i < |history| ==> history[i].atMs <= lastMs)
      && entries == EntriesOf(Recent(history, lastMs))
    }

    constructor ()
      ensures Valid() && history == [] && entries == []
    {
      entries, history, lastMs := [], [], 0;
    }

    /**
     Accepts a request exactly if every earlier acceptance of the same address and request number is at
     least 10000 ms old or has at least 64 later ones.
     */
    method ShouldReply(sourceAddress: nat, requestId: nat, nowMs: nat) returns (accepted: bool)
      requires Valid() && lastMs <= nowMs
      modifies this
      ensures Valid() && lastMs == nowMs
      ensures var request := Answer(sourceAddress, requestId, nowMs);
        && (accepted <==> forall i ::
              (0 <= i < |old(history)| && old(history)[i].sourceAddress == sourceAddress &&
               old(history)[i].requestId == requestId) ==>
              (nowMs - old(history)[i].atMs >= 10_000 || |old(history)| - i > 64))
        && history == if accepted then old(history) + [request] else old(history)
    {
      hide Recent, Unexpired, InTimeOrder, Spaced;
      ghost var request := Answer(sourceAddress, requestId, nowMs);
      ghost var recent := Recent(history, nowMs);
      KnownExactly(history, request);
      RecentAges(history, lastMs, nowMs);
      EraseExpired(nowMs, Recent(history, lastMs));
      lastMs := nowMs;
      var i := 0;
      while i < |entries| && !(entries[i].sourceAddress == sourceAddress && entries[i].requestId == requestId)
        invariant i <= |entries| && forall j :: 0 <= j < i ==> !SameKey(recent[j], request)
      {
        i := i + 1;
      }
      if i < |entries| {
        assert SameKey(recent[i], request);
        return false;
      }
      AnswerKeepsSpaced(history, request);
      RecentGrows(history, request);
      if |entries| >= MAXIMUM_REPLY_CACHE_ENTRIES {
        entries := entries[1..];
      }
      entries := entries + [Entry(sourceAddress, requestId, nowMs + REPLY_CACHE_TTL_MS)];
      history := history + [request];
      accepted := true;
    }

    method EraseExpired(nowMs: nat, ghost held: seq<Answer>)
      requires entries == EntriesOf(held)
      modifies this`entries
      ensures entries == EntriesOf(Unexpired(held, nowMs))
    {
      hide EntriesOf, Unexpired;
      var kept: seq<Entry> := [];
      var i := 0;
      assert held[0..] == held;
      NoneLeft(nowMs);
      while i < |entries|
        invariant i <= |entries| && entries == EntriesOf(held)
        invariant EntriesOf(Unexpired(held, nowMs)) == kept + EntriesOf(Unexpired(held[i..], nowMs))
      {
        UnexpiredFrom(held, i, nowMs);
        if entries[i].expiresAtMs > nowMs {
          kept := kept + [entries[i]];
        }
        i := i + 1;
      }
      assert held[i..] == [];
      entries := kept;
    }
  }

  /** Answering pushes out the oldest of 64. */
  lemma RecentGrows(history: seq<Answer>, request: Answer)
    requires InTimeOrder(history) && InTimeOrder(history + [request])
    ensures var recent := Recent(history, request.atMs);
      Recent(history + [request], request.atMs) ==
        (if |recent| >= MAXIMUM_REPLY_CACHE_ENTRIES then recent[1..] else recent) + [request]
  {
    var all := history + [request];
    CutIsExact(history, request.atMs);
    assert forall i :: 0 <= i < |all| ==> all[i] == if i < |history| then history[i] else request;
    CutUnique(all, request.atMs, Cut(history, request.atMs));
  }
}
