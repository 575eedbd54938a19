/**
 The notification handshake between the telemetry reader thread and the UI thread
 (src/gui/core_process_controller.cpp), as interleaved atomic steps: each step is one critical
 section, one post to the message queue or one message taken from it.
 */
module Notification {

  /** Where the reader thread of the current generation is. */
  datatype Reader = Reading | AboutToPost | Gone

  /** The message the UI thread is handling, if any, named by the generation it carries. */
  datatype Handling = Idle | Handling(generation: nat)

  datatype State = State(
    generation: nat,
    parsedRevision: nat,            // revision of the parser's snapshot
    notificationPending: bool,
    reader: Reader,
    queue: seq<nat>,                // posted messages by generation, oldest first
    ui: Handling,
    shownRevision: nat,             // revision of the snapshot last taken in this generation
    postFailed: bool)               // a post of this generation has failed

  const INITIAL := State(0, 0, false, Gone, [], Idle, 0, false)

  datatype Event =
    | Append(changed: bool)         // the reader parses a chunk under the lock
    | Post                          // the reader posts the notification it owes
    | PostFails
    | ReaderEnds                    // the pipe closes
    | Dispatch                      // the UI thread picks up the oldest message
    | Take                          // the UI thread runs `take_latest_telemetry` for it
    | Start                         // the UI thread starts the next process after joining the reader

  predicate Enabled(s: State, e: Event) {
    match e
    case Append(_) => s.reader == Reading
    case Post => s.reader == AboutToPost
    case PostFails => s.reader == AboutToPost
    case ReaderEnds => s.reader == Reading
    case Dispatch => s.ui == Idle && s.queue != []
    case Take => s.ui.Handling?
    case Start => s.ui == Idle && s.reader == Gone
  }

  function Next(s: State, e: Event): State
    requires Enabled(s, e)
  {
    match e
    case Append(changed) =>
      var notify := changed && !s.notificationPending;
      s.(parsedRevision := s.parsedRevision + (if changed then 1 else 0),
         notificationPending := s.notificationPending || notify,
         reader := if notify then AboutToPost else Reading)
    case Post => s.(queue := s.queue + [s.generation], reader := Reading)
    case PostFails => s.(notificationPending := false, reader := Gone, postFailed := true)
    case ReaderEnds => s.(reader := Gone)
    case Dispatch => s.(ui := Handling(s.queue[0]), queue := s.queue[1..])
    case Take =>
      if s.ui.generation != s.generation then s.(ui := Idle)
      else s.(ui := Idle, shownRevision := s.parsedRevision, notificationPending := false)
    case Start =>
      s.(generation := s.generation + 1, parsedRevision := 0, notificationPending := false, reader := Reading,
         shownRevision := 0, postFailed := false)
  }

  predicate CanRun(s: State, events: seq<Event>)
    decreases |events|
  {
    events == [] || (Enabled(s, events[0]) && CanRun(Next(s, events[0]), events[1..]))
  }

  function Run(s: State, events: seq<Event>): State
    requires CanRun(s, events)
    decreases |events|
  {
    if events == [] then s else Run(Next(s, events[0]), events[1..])
  }

  /** Queued messages of a generation. */
  function Queued(queue: seq<nat>, generation: nat): nat {
    if queue == [] then 0 else (if queue[0] == generation then 1 else 0) + Queued(queue[1..], generation)
  }

  lemma {:induction false} QueuedAppend(queue: seq<nat>, posted: nat, generation: nat)
    ensures Queued(queue + [posted], generation) == Queued(queue, generation) + (if posted == generation then 1 else 0)
  {
    if queue != [] {
      assert (queue + [posted])[1..] == queue[1..] + [posted];
      QueuedAppend(queue[1..], posted, generation);
    }
  }

  lemma {:induction false} QueuedNever(queue: seq<nat>, generation: nat)
    requires forall i :: 0 <= i < |queue| ==> queue[i] < generation
    ensures Queued(queue, generation) == 0
  {
    if queue != [] {
      QueuedNever(queue[1..], generation);
    }
  }

  /** Notifications of this generation about to be posted, queued or being handled. */
  function Outstanding(s: State): nat {
    (if s.reader == AboutToPost then 1 else 0) + Queued(s.queue, s.generation)
    + (if s.ui == Handling(s.generation) then 1 else 0)
  }

  predicate Inv(s: State) {
    && Outstanding(s) == (if s.notificationPending then 1 else 0)
    && (!s.notificationPending && !s.postFailed ==> s.shownRevision == s.parsedRevision)
    && s.shownRevision <= s.parsedRevision
    && (s.reader == AboutToPost || s.postFailed ==> s.shownRevision < s.parsedRevision)
    && (s.postFailed ==> s.reader == Gone && !s.notificationPending)
    && (forall i :: 0 <= i < |s.queue| ==> s.queue[i] <= s.generation)
    && (s.ui.Handling? ==> s.ui.generation <= s.generation)
  }

  lemma NextKeeps(s: State, e: Event)
    requires Inv(s) && Enabled(s, e)
    ensures Inv(Next(s, e))
  {
    match e
    case Post => QueuedAppend(s.queue, s.generation, s.generation);
    case Start => QueuedNever(s.queue, s.generation + 1);
    case _ =>
  }

  lemma {:induction false} RunKeeps(s: State, events: seq<Event>)
    requires Inv(s) && CanRun(s, events)
    ensures Inv(Run(s, events))
    decreases |events|
  {
    if events != [] {
      NextKeeps(s, events[0]);
      RunKeeps(Next(s, events[0]), events[1..]);
    }
  }

  /**
   No flooding: in every interleaving the flag is set exactly while one notification of this
   generation is about to be posted, queued or being handled, and never more than one is.
   */
  lemma FlagIsExact(events: seq<Event>)
    requires CanRun(INITIAL, events)
    ensures var s := Run(INITIAL, events);
      && Outstanding(s) <= 1 && (s.notificationPending <==> Outstanding(s) == 1)
      && Queued(s.queue, s.generation) <= 1
  {
    RunKeeps(INITIAL, events);
  }

  /**
   No lost wake-up, exactly when no post failed: in every interleaving in which no notification
   is outstanding, the UI has taken the parser's latest revision if and only if no post of this
   generation failed.
   */
  lemma NoLostWakeUp(events: seq<Event>)
    requires CanRun(INITIAL, events)
    ensures var s := Run(INITIAL, events);
      Outstanding(s) == 0 ==> (s.shownRevision == s.parsedRevision <==> !s.postFailed)
  {
    RunKeeps(INITIAL, events);
  }

  predicate LeftBehind(s: State) {
    Outstanding(s) == 0 && !s.notificationPending && s.shownRevision < s.parsedRevision
  }

  lemma FailureStays(s: State, e: Event)
    requires Inv(s) && s.postFailed && Enabled(s, e) && !e.Start?
    ensures Next(s, e).postFailed && Next(s, e).parsedRevision == s.parsedRevision
    ensures Next(s, e).shownRevision == s.shownRevision
  {
    if s.queue != [] && s.queue[0] == s.generation {
      assert Queued(s.queue, s.generation) > 0;
    }
  }

  /** After a failed post the UI stays behind for good: whatever happens before the next start, it never catches up. */
  lemma {:induction false} FailureIsFinal(s: State, events: seq<Event>)
    requires Inv(s) && s.postFailed && CanRun(s, events)
    requires forall i :: 0 <= i < |events| ==> !events[i].Start?
    ensures var t := Run(s, events);
      LeftBehind(t) && t.postFailed && t.shownRevision == s.shownRevision && t.parsedRevision == s.parsedRevision
    decreases |events|
  {
    if events != [] {
      NextKeeps(s, events[0]);
      FailureStays(s, events[0]);
      FailureIsFinal(Next(s, events[0]), events[1..]);
    }
  }

  /**
   Every failed post loses its wake-up: in every run, if the post the reader owes fails, then over
   every continuation up to the next start the UI never shows the revision it was about.
   */
  lemma EveryFailedPostLoses(before: seq<Event>, after: seq<Event>)
    requires CanRun(INITIAL, before) && Run(INITIAL, before).reader == AboutToPost
    requires CanRun(Next(Run(INITIAL, before), PostFails), after)
    requires forall i :: 0 <= i < |after| ==> !after[i].Start?
    ensures var s := Run(INITIAL, before); var t := Run(Next(s, PostFails), after);
      LeftBehind(t) && t.shownRevision == s.shownRevision < s.parsedRevision == t.parsedRevision
  {
    RunKeeps(INITIAL, before);
    NextKeeps(Run(INITIAL, before), PostFails);
    FailureIsFinal(Next(Run(INITIAL, before), PostFails), after);
  }

  /** A run with a failed post exists. */
  lemma FailedPostLoses()
    ensures exists events :: CanRun(INITIAL, events) && LeftBehind(Run(INITIAL, events))
  {
    var s1 := Next(INITIAL, Start);
    var s2 := Next(s1, Append(true));
    var s3 := Next(s2, PostFails);
    var events := [Start, Append(true), PostFails];
    assert events[1..] == [Append(true), PostFails] && events[1..][1..] == [PostFails] && events[1..][1..][1..] == [];
    assert CanRun(s3, []) && Run(s3, []) == s3;
    assert CanRun(s2, [PostFails]) && CanRun(s1, events[1..]) && CanRun(INITIAL, events);
    assert Run(s2, [PostFails]) == s3 && Run(s1, events[1..]) == s3 && Run(INITIAL, events) == s3;
    assert LeftBehind(s3);
  }

  /** A message of an earlier generation changes nothing when it is handled: not the flag, not what is shown. */
  lemma StaleMessageIgnored(s: State)
    requires Inv(s) && s.ui.Handling? && s.ui.generation != s.generation
    ensures Next(s, Take) == s.(ui := Idle)
  {
  }

  /** The steps that empty the message queue once the reader has posted what it owes. */
  function Drain(s: State): State
    decreases |s.queue|, if s.ui.Handling? then 1 else 0
  {
    if s.ui.Handling? then Drain(Next(s, Take))
    else if s.queue != [] then Drain(Next(Next(s, Dispatch), Take))
    else s
  }

  /** Draining takes every queued message and leaves the parser alone. */
  lemma {:induction false} DrainKeeps(s: State)
    requires Inv(s)
    ensures var t := Drain(s);
      && Inv(t) && t.queue == [] && t.ui == Idle && t.reader == s.reader && t.generation == s.generation
      && t.parsedRevision == s.parsedRevision && t.postFailed == s.postFailed
    decreases |s.queue|, if s.ui.Handling? then 1 else 0
  {
    if s.ui.Handling? {
      NextKeeps(s, Take);
      DrainKeeps(Next(s, Take));
    } else if s.queue != [] {
      NextKeeps(s, Dispatch);
      NextKeeps(Next(s, Dispatch), Take);
      DrainKeeps(Next(Next(s, Dispatch), Take));
    }
  }

  /**
   From the end of every run: once the owed post, if any, succeeds and the queued messages are
   taken, nothing is pending, and the UI shows the latest revision exactly if no post had failed.
   */
  lemma EveryRunCatchesUp(events: seq<Event>)
    requires CanRun(INITIAL, events)
    ensures var s := Run(INITIAL, events);
      var t := Drain(if s.reader == AboutToPost then Next(s, Post) else s);
      && t.parsedRevision == s.parsedRevision && t.queue == [] && !t.notificationPending
      && (t.shownRevision == t.parsedRevision <==> !s.postFailed)
  {
    RunKeeps(INITIAL, events);
    var s := Run(INITIAL, events);
    if s.reader == AboutToPost {
      NextKeeps(s, Post);
      DrainKeeps(Next(s, Post));
    } else {
      DrainKeeps(s);
    }
  }

  /** The fields the threads share; each method is one of their atomic steps. */
  class CoreProcessController {
    var generation: nat
    var parsedRevision: nat
    var telemetryNotificationPending: bool

    constructor ()
      ensures generation == 0 && parsedRevision == 0 && !telemetryNotificationPending
    {
      generation, parsedRevision, telemetryNotificationPending := 0, 0, false;
    }

    /** Does the shared part of a state match the fields? */
    ghost predicate Shares(s: State)
      reads this
    {
      && s.generation == generation && s.parsedRevision == parsedRevision
      && s.notificationPending == telemetryNotificationPending
    }

    /** The locked section of the read loop: `changed` is the parser's answer, `notify` asks for a post. */
    method ReadTelemetry(changed: bool, ghost s: State) returns (notify: bool)
      requires Shares(s) && Enabled(s, Append(changed))
      modifies this
      ensures Shares(Next(s, Append(changed))) && (notify <==> Next(s, Append(changed)).reader == AboutToPost)
    {
      notify := false;
      if changed {
        parsedRevision := parsedRevision + 1;
      }
      if changed && !telemetryNotificationPending {
        telemetryNotificationPending := true;
        notify := true;
      }
    }

    /** The locked section after a post that failed; the reader then returns. */
    method PostFailed(ghost s: State)
      requires Shares(s) && Enabled(s, PostFails)
      modifies this`telemetryNotificationPending
      ensures Shares(Next(s, PostFails))
    {
      telemetryNotificationPending := false;
    }

    method TakeLatestTelemetry(generation: nat, ghost s: State) returns (taken: bool, revision: nat)
      requires Shares(s) && s.ui == Handling(generation)
      modifies this`telemetryNotificationPending
      ensures Shares(Next(s, Take))
      ensures taken <==> generation == this.generation && parsedRevision != 0
      ensures taken ==> revision == Next(s, Take).shownRevision == parsedRevision
    {
      revision := 0;
      if generation != this.generation {
        return false, 0;
      }
      revision := parsedRevision;
      telemetryNotificationPending := false;
      taken := revision != 0;
    }

    /** The resets in `start`, after the old reader was joined. */
    method Start(ghost s: State)
      requires Shares(s) && Enabled(s, Event.Start)
      modifies this
      ensures Shares(Next(s, Event.Start))
    {
      generation := generation + 1;
      parsedRevision := 0;
      telemetryNotificationPending := false;
    }
  }
}
