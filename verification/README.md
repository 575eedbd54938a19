# LanSpeak: verified model

LanSpeak is a voice intercom for a local network. One core process captures, sends, receives and
renders sixteen-bit mono audio; a user interface starts that process, reads its telemetry through a
pipe and keeps the settings file. This project models the stateful and protocol parts of both, in
Dafny 4.11, and proves what they promise for every input, every run and every interleaving.
`dafny verify dfyconfig.toml` checks all of it.

## What is modelled

**Jitter buffer.** `JitterSpec` says on values what each public operation does. Every frame carries
its epoch (a new one begins at each sequence restart and reset), its packet number and its offset in
the packet. `JitterBuffers` is the class over a ring array, filled and emptied in wrap-around chunks,
with its map of waiting packets and all sixteen counters and the started flag; every public method,
in the sample form and in the byte form, is proved to be the operation of the same name.
`JitterInvariant` proves what every run keeps: playback order and authenticity, conservation of
frames, accounting of sequence numbers, the window of waiting packets. `JitterPlayback` proves what
playback does not depend on: the arrival order and the render period. `JitterLaws` says what each
operation does in terms of the state before and after it and literal constants.

**Peer information.** `PeerInfoSpec` and `PeerInfoTrackers` model the INFO/ACK/REQUEST protocol with
revisions, retries and session changes, as functions and as the class; `PeerInfoLaws` gives the exact
schedules and reactions. `PeerInfoNetwork` composes two
nodes over a network that loses, duplicates and reorders, with restarts of both, any presence reports
and any interleaving.

**Presence.** `PresenceSpec`, `PresenceTrackers` and `PresenceRuns` model the PING/PONG/GOODBYE prober
with retries and its xorshift generator, and prove timeouts and round-trip times over every history
of a peer; `PresenceLaws` gives what is shown over every history, the reaction to each packet and the
probe schedule. `PresenceNetwork` composes the prober with the peer it probes over the same kind of network.

**One node.** `NodeSpec` and `RoomReceivers` compose both trackers in the way the room receiver does
and prove when a latency is published.

**The pipe.** `TextCodec`, `LineBuffers` and `Telemetry` model escaping, splitting, the line buffer,
the printer and the parser of discovered peers, and prove that records survive any fragmentation.
`DiscoveryRuns` follows whole runs of the core, through every snapshot it prints, to the list the user
interface shows, and `DiscoveryLaws` relates that list to the answers that came in.
`Notification` models the reader thread and the UI thread as interleaved atomic steps, messages of
old generations included.

**Smaller parts.** `DiscoveryCache` (the reply cache against its whole history), `Resampler` (linear
resampling in exact fractions), `Settings` and `SettingsRoundTrip` (the settings file), `Pcm` (sample
words).

Fields marked `ghost`, `History` in `JitterSpec`, `printed` and `used` in `DiscoveryRuns`, and `sessions`, `issued`, `losses`, `stamp` and
`ackStamp` in `PeerInfoNetwork` are bookkeeping: no modelled operation reads them.

## Results about the code

- An ACK names the session of the INFO it answers and not its own sender, so a node can accept the
  ACK of a peer that has since restarted and holds nothing (`StaleAckMisleads`). The exact condition
  under which the other side is up to date is `UpToDateIffAcked`; a REQUEST repairs the rest
  (`RequestRepairs`), and while the other side neither restarts nor clears its copy, acknowledged is
  always right (`AgreementLasts`, `AgreementFromBoot`).
- After the last 32-bit revision comes 1, which a holder of the last one ignores (`WrapIgnored`).
- A wake-up is lost exactly when its post fails (`NoLostWakeUp`): the reader stops, and nothing before the
  next start brings the UI to the latest revision (`EveryFailedPostLoses`; `FailedPostLoses` is a run).
- A jitter buffer whose start threshold exceeds its capacity never plays; any other one can
  (`PlaysIffThresholdFits`).
- Saving and loading settings gives them back exactly when they are in range, on the printed decimal
  grid and have canonical hotkeys (`SettingsRoundTrip`); `SaveThenLoad` says what comes back otherwise.
- In `pop_into` the branch for stale packets is never taken and the inner loop runs at most once
  (`SkipGapsOnce`). In the resampler neither the clamp of the left index nor the clamp of the sample
  ever binds (`PositionInside`, `SampleBetweenNeighbours`).

## Model

| member | source | states |
|---|---|---|
| `JitterInvariant.PlaybackInOrder` | src/core/jitter_buffer.cpp:113-171 | Over any run of pushes, pops, restarts and resets, the real frames handed out are strictly increasing in (epoch, sequence, offset), each is a sample of a packet that the run pushed, from the one accepted copy of it, and everything played precedes everything ready, which precedes everything waiting |
| `JitterInvariant.AcceptedWerePushed` | src/core/jitter_buffer.cpp:44-60 | Every accepted copy is the payload of a push of the run with that sequence number |
| `JitterInvariant.FramesConserved` | src/core/jitter_buffer.cpp:107-187 | Over any run, pushed frames equal played + overflow-dropped + ready + waiting + discarded; underruns split exactly into startup and after-start; rendered frames are those requested; accepted plus late packets are those offered |
| `JitterInvariant.SequencesAccounted` | src/core/jitter_buffer.cpp:207-217 | In every epoch of any run, the numbers passed are the accepted ones, each appended once and in order, plus the counted gaps |
| `JitterInvariant.PendingWindow` | src/core/jitter_buffer.cpp:33-56 | Over any run, waiting packets lie in the 256 numbers after the expected one, none is empty and at most 256 wait |
| `JitterInvariant.SkipGapsOnce` | src/core/jitter_buffer.cpp:141-151 | In every state of the invariant the stale branch is dead and one skip already yields frames |
| `JitterInvariant.ExpectedBounded` | src/core/jitter_buffer.cpp:44-48 | If all pushed numbers stay below a limit, the expected number never exceeds it, so 64-bit arithmetic does not wrap below 2^64 - 1 |
| `JitterInvariant.StepKeeps` | src/core/jitter_buffer.cpp:22-205 | Every operation keeps the whole invariant and takes back no played frame |
| `JitterInvariant.CopiesKept` | src/core/jitter_buffer.cpp:29-56 | The copy of a packet accepted first stays the accepted one, whatever operation follows |
| `JitterInvariant.PushKeeps` | src/core/jitter_buffer.cpp:22-61 | A push of any packet in any state of the invariant keeps it |
| `JitterInvariant.PopKeeps` | src/core/jitter_buffer.cpp:113-171 | A pop of any length keeps the invariant and only extends what was played |
| `JitterInvariant.PlayKeeps` | src/core/jitter_buffer.cpp:136-167 | The playing loop hands out or counts as underrun exactly what was asked, counts at most one underrun event, and of the counters touches only underruns after the start, gaps, overflow and the maximum |
| `JitterInvariant.PromoteKeeps` | src/core/jitter_buffer.cpp:207-217 | Promotion moves waiting packets in order, conserves frames and ends with nothing due |
| `JitterInvariant.AdmitKeeps` | src/core/jitter_buffer.cpp:30-42 | A packet that is not late is placed at most 256 numbers ahead of the stream, restarting it if needed |
| `JitterInvariant.OrderedWindow` | src/core/jitter_buffer.cpp:224-248 | Appending later frames and dropping the oldest keeps the queue in order |
| `JitterBuffers.JitterBuffer.constructor` | src/core/jitter_buffer.cpp:8-13 | A new buffer is the initial state and holds at least one frame |
| `JitterBuffers.JitterBuffer.Push` | src/core/jitter_buffer.cpp:22-61 | The method over ring, map and counters is the abstract push |
| `JitterBuffers.JitterBuffer.PushPcm16Le` | src/core/jitter_buffer.cpp:63-111 | Accepts exactly even non-empty payloads, with the state and counters of pushing the decoded samples |
| `JitterBuffers.JitterBuffer.PopInto` | src/core/jitter_buffer.cpp:113-171 | The output is the frames the abstract pop plays, then silence; the new state is the abstract one |
| `JitterBuffers.JitterBuffer.Reset` | src/core/jitter_buffer.cpp:178-187 | Reset is the abstract reset: a new epoch, nothing held, counters kept |
| `JitterBuffers.JitterBuffer.Snapshot` | src/core/jitter_buffer.cpp:189-194 | The copy is the counters, with the ready frames as the current ones |
| `JitterBuffers.JitterBuffer.PlacePacket` | src/core/jitter_buffer.cpp:30-42 | Late packets are counted and dropped; any other sets or keeps the stream position |
| `JitterBuffers.JitterBuffer.ResetSequence` | src/core/jitter_buffer.cpp:196-205 | A restart at a sequence number |
| `JitterBuffers.JitterBuffer.Wait` | src/core/jitter_buffer.cpp:48-56 | An early packet waits unless a copy already does, which is counted |
| `JitterBuffers.JitterBuffer.PromoteLocked` | src/core/jitter_buffer.cpp:207-217 | The loop is the abstract promotion |
| `JitterBuffers.JitterBuffer.AppendReady` | src/core/jitter_buffer.cpp:219-250 | The ring then holds the newest frames of queue plus samples, with overflow and maximum counted |
| `JitterBuffers.JitterBuffer.AppendReadyPcm16Le` | src/core/jitter_buffer.cpp:252-276 | The byte form does the same on the decoded samples |
| `JitterBuffers.JitterBuffer.WriteReady` | src/core/jitter_buffer.cpp:236-248 | The chunked writes append the samples for any wrap position |
| `JitterBuffers.JitterBuffer.DiscardReady` | src/core/jitter_buffer.cpp:278-282 | Drops that many frames from the front, or all |
| `JitterBuffers.JitterBuffer.CopyReady` | src/core/jitter_buffer.cpp:284-298 | Moves a prefix of the queue into the output and touches nothing else of it |
| `JitterBuffers.JitterBuffer.SkipMissing` | src/core/jitter_buffer.cpp:141-151 | The inner loop, stale branch included, is the abstract gap skipping |
| `JitterBuffers.KeepNewest` | src/core/jitter_buffer.cpp:224-234 | Dropping overflow first from old and then from new frames keeps the last frames of both together |
| `JitterPlayback.ArrivalOrderIrrelevant` | src/core/jitter_buffer.cpp:29-60 | At most 256 packets in any order after the first, with any duplicates: the ring holds the newest frames of the in-order first copies, and late and overflow counters are exact |
| `JitterPlayback.RenderPeriodIrrelevant` | src/core/jitter_buffer.cpp:136-170 | Popping a and then b frames plays, silences and leaves the same as popping a + b |
| `JitterPlayback.PlaysIffThresholdFits` | src/core/jitter_buffer.cpp:122-134 | Some run plays a frame exactly when the start threshold is at most the capacity |
| `JitterLaws.PopStarts` | src/core/jitter_buffer.cpp:122-134 | Playback starts exactly when it had started or the ready frames reach the threshold; until then a pop changes only the render and startup underrun counters; from then on it plays the ready frames first |
| `JitterLaws.PopWithinReady` | src/core/jitter_buffer.cpp:138-170 | While the ready frames suffice, a started pop takes exactly those and touches nothing that waits: the whole new state |
| `JitterLaws.PopPlaysFront` | src/core/jitter_buffer.cpp:138-166 | A started pop plays the front of everything held, ready frames first, then waiting packets in sequence order, of each unbroken run what fits the ring, counts silence only when all is used up, and still holds the rest |
| `JitterLaws.PushRestarts` | src/core/jitter_buffer.cpp:33-42 | More than 256 numbers behind or ahead the stream restarts at the packet: new epoch, playback stopped, nothing waiting, only the newest frames of this packet ready, every counter stated |
| `JitterLaws.RestartsExactly` | src/core/jitter_buffer.cpp:33-42 | The restart counter, the epoch and the started flag move exactly for a non-empty packet more than 256 numbers away |
| `JitterLaws.PushIgnores` | src/core/jitter_buffer.cpp:25-39 | An empty packet does nothing; one up to 256 behind, or already waiting, moves only the late counter |
| `JitterLaws.PushWaits` | src/core/jitter_buffer.cpp:48-60 | A packet up to 256 ahead waits and moves only the counters of pushed packets and frames |
| `JitterLaws.PushDue` | src/core/jitter_buffer.cpp:44-60 | The expected packet goes to the ready queue with the unbroken run of waiting packets behind it; the newest frames stay, and every counter is stated |
| `JitterLaws.PushFirst` | src/core/jitter_buffer.cpp:30-32 | The first packet of a new or reset buffer starts the stream at its number |
| `JitterLaws.PromoteTakesRun` | src/core/jitter_buffer.cpp:207-217 | Promotion takes the waiting packets from the expected one to the next missing one, in order |
| `JitterLaws.ResetEmpties` | src/core/jitter_buffer.cpp:178-187 | A reset holds nothing, expects any packet, stops playback and keeps every other counter |
| `Pcm.CodecRoundTrip` | src/core/pcm_audio.cpp:15-25 | Writing and reading sample words are inverse in both directions |
| `Pcm.WordRoundTrip` | src/core/pcm_audio.cpp:15-25 | A word is its low byte plus 256 times its high byte, wrapped to sixteen bits, and writing inverts reading |
| `Pcm.DecodeMonoPcm16Le` | src/core/pcm_audio.cpp:27-41 | Fails with nothing exactly on an odd payload; otherwise writing the samples gives the payload back |
| `PeerInfoSpec.InfoRoundTrip` | src/core/peer_info_tracker.cpp:15-48 | An INFO packet carries its profile exactly, and passes the receiver's check exactly when each component is at most five seconds |
| `PeerInfoSpec.InfoStoredIffNewer` | src/core/peer_info_tracker.cpp:150-167 | An INFO is stored exactly when its session is listened to and its revision is newer than the stored one, and acknowledged exactly when it is not older |
| `PeerInfoSpec.WrapIgnored` | src/core/peer_info_tracker.cpp:155-164 | After the last revision comes 1, and whoever stores the last one neither stores nor acknowledges it |
| `PeerInfoSpec.TicksBounded` | src/core/peer_info_tracker.cpp:116-139 | Any number of ticks at any times sends at most three INFO, three REQUEST and no ACK |
| `PeerInfoSpec.ReplyRanksLower` | src/core/peer_info_tracker.cpp:141-187 | A packet causes at most one reply, of strictly lower rank |
| `PeerInfoSpec.ExchangeTerminates` | src/core/peer_info_tracker.cpp:141-187 | Without ticks and duplication, no delivery schedule is longer than the total rank in flight |
| `PeerInfoLaws.InfoSchedule` | src/core/peer_info_tracker.cpp:116-139 | After news the next tick at any t0 sends the current INFO, then the first tick at least 1000 ms later, then the first at least 2000 ms after that, and no other tick ever |
| `PeerInfoLaws.InfoResent` | src/core/peer_info_tracker.cpp:204-220 | After any sent INFO, a requested one included, it is sent twice more on the same schedule |
| `PeerInfoLaws.RequestSchedule` | src/core/peer_info_tracker.cpp:222-239 | After coming online or a new session, while nothing valid is stored, the first ticks at least 1000, then 2000, then 5000 ms later ask, and no other tick does |
| `PeerInfoLaws.ProfileSet` | src/core/peer_info_tracker.cpp:58-74 | A different profile gets the next revision and is news, the same one changes nothing, and the remote side never changes |
| `PeerInfoLaws.PeerArrives` | src/core/peer_info_tracker.cpp:93-113 | Coming online or meeting a new session forgets the old remote profile, makes the own one news and starts the questions |
| `PeerInfoLaws.PeerStays` | src/core/peer_info_tracker.cpp:93-105 | For an online peer the known session, or none, changes nothing |
| `PeerInfoLaws.PeerGone` | src/core/peer_info_tracker.cpp:83-91 | A peer that is not online holds no remote profile, and neither ticks nor packets make it send anything |
| `PeerInfoLaws.AckEnds` | src/core/peer_info_tracker.cpp:169-178 | Exactly an ACK of the own session and current revision ends the INFO schedule; any other one changes nothing |
| `PeerInfoLaws.RequestAnswered` | src/core/peer_info_tracker.cpp:180-185 | Exactly a REQUEST of the session talked to is answered at once by the current INFO |
| `PeerInfoLaws.InfoEndsQuestions` | src/core/peer_info_tracker.cpp:150-161 | Once an INFO of the session listened to came, no tick asks again |
| `PeerInfoTrackers.PeerInfoTracker.constructor` | src/core/peer_info_tracker.cpp:52-56 | All peers start offline and empty; session 0 becomes 1 |
| `PeerInfoTrackers.PeerInfoTracker.SetLocalProfile` | src/core/peer_info_tracker.cpp:58-74 | The method is the abstract operation on one peer; the others keep their state |
| `PeerInfoTrackers.PeerInfoTracker.UpdatePresence` | src/core/peer_info_tracker.cpp:76-114 | The method is the abstract operation on one peer; the others keep their state |
| `PeerInfoTrackers.PeerInfoTracker.Tick` | src/core/peer_info_tracker.cpp:116-139 | Every peer is ticked once, and the packets come out in peer order |
| `PeerInfoTrackers.PeerInfoTracker.OnPacket` | src/core/peer_info_tracker.cpp:141-187 | The method is the abstract reaction of one peer, with its replies |
| `PeerInfoNetwork.RunKeeps` | src/core/peer_info_tracker.cpp:58-249 | The protocol invariant of both nodes survives every interleaving, with restarts |
| `PeerInfoNetwork.CopiesAreGenuine` | src/core/peer_info_tracker.cpp:150-166 | In every run a valid stored profile is exactly what the other node announced under that session and revision, in the session being talked to |
| `PeerInfoNetwork.AcknowledgedAgrees` | src/core/peer_info_tracker.cpp:169-178 | In every run, a node whose profile counts as acknowledged is right if the other has not lost its copy since sending that ACK |
| `PeerInfoNetwork.UpToDateIffAcked` | src/core/peer_info_tracker.cpp:141-187 | In every run the other node holds the current profile exactly when it has sent an ACK for it since it last lost its copy |
| `PeerInfoNetwork.AgreementLasts` | src/core/peer_info_tracker.cpp:141-187 | Once the other node is up to date in some run, then over every continuation in which it neither restarts nor clears its copy, a node that counts as acknowledged is right, new profiles and restarts of its own included |
| `PeerInfoNetwork.AgreementFromBoot` | src/core/peer_info_tracker.cpp:76-187 | In every run in which the other node never restarts or clears a copy, acknowledged means up to date |
| `PeerInfoNetwork.StaleAckMisleads` | src/core/peer_info_tracker.cpp:169-178 | A run in which a node counts as acknowledged while the restarted other one holds nothing |
| `PeerInfoNetwork.RequestRepairs` | src/core/peer_info_tracker.cpp:180-185 | From any state of the invariant in which both talk to each other, REQUEST, INFO and ACK delivered in turn restore agreement |
| `PresenceSpec.NextRandom` | src/core/presence_tracker.cpp:128-135 | The generator never reaches zero |
| `PresenceSpec.XorshiftNeverZero` | src/core/presence_tracker.cpp:128-135 | From a non-zero state the guard against zero never acts |
| `PresenceSpec.FirstDraw` | src/core/presence_tracker.cpp:128-135 | The first draw from state 1 is that of the shifts 13, 7 and 17 |
| `PresenceTrackers.PresenceTracker.constructor` | src/core/presence_tracker.cpp:15-24 | Nothing is known or started, and the generator state is not zero |
| `PresenceTrackers.PresenceTracker.Start` | src/core/presence_tracker.cpp:30-35 | Every peer is due at once |
| `PresenceTrackers.PresenceTracker.Tick` | src/core/presence_tracker.cpp:37-65 | Before the start nothing happens; afterwards every peer is ticked in order, drawing from one generator |
| `PresenceTrackers.PresenceTracker.OnPacket` | src/core/presence_tracker.cpp:67-106 | The method is the abstract reaction of one peer; a number is drawn only where the code draws one |
| `PresenceTrackers.PresenceTracker.OnAudioPacket` | src/core/presence_tracker.cpp:108-112 | Audio marks the peer online and leaves an outstanding probe alone |
| `PresenceTrackers.PresenceTracker.Shutdown` | src/core/presence_tracker.cpp:114-122 | A started tracker says goodbye to every peer, once |
| `PresenceTrackers.TickedPeer` | src/core/presence_tracker.cpp:41-63 | However the draws are shared, each peer is ticked as if alone with some non-zero draw |
| `PresenceRuns.TimeoutJustified` | src/core/presence_tracker.cpp:43-58 | When a tick gives up, changes the visible state or drops the round-trip time, exactly three pings of one nonce were sent, the first at least 5000 ms before, and no matching pong came in between |
| `PresenceRuns.ProbeSurvives` | src/core/presence_tracker.cpp:148-156 | Incoming pings and audio neither cancel nor postpone an outstanding probe |
| `PresenceRuns.ProbedSoon` | src/core/presence_tracker.cpp:137-165 | The next deadline is at most 120000 ms after the last event, and a tick acts exactly from the deadline on |
| `PresenceRuns.RttHonest` | src/core/presence_tracker.cpp:86-96 | In every history a known round-trip time means online, and is the arrival of a pong of the shown session minus the first ping of its nonce |
| `PresenceLaws.ShownState` | src/core/presence_tracker.cpp:43-112 | Over every history a peer is shown online exactly when a ping, an accepted pong or audio came after the last goodbye of the session then shown and after the last probe given up, and unknown exactly when none ever came |
| `PresenceLaws.ShownSession` | src/core/presence_tracker.cpp:74-106 | Over every history the session shown is that of the last ping or accepted pong, and the time last seen that of the last sign of life |
| `PresenceLaws.ProbeSchedule` | src/core/presence_tracker.cpp:37-65 | An unanswered probe pings at its time, at least 1000 and again 2000 ms later with one nonce, and gives up 2000 ms after that; no tick between does anything; the next probe is 60000 to 120000 ms later |
| `PresenceLaws.GoodbyeTakesOffline` | src/core/presence_tracker.cpp:98-105 | A goodbye of the shown session gives offline, no time, no probe and the next one 60000 to 120000 ms later; any other goodbye changes nothing |
| `PresenceLaws.PingAnswered` | src/core/presence_tracker.cpp:74-84 | A ping shows its session, is online, keeps only a time of the same session, and is answered by one pong with its nonce |
| `PresenceLaws.PongMeasures` | src/core/presence_tracker.cpp:86-96 | Exactly a pong of the outstanding nonce ends the probe and shows the time since its first ping; the next probe is 25000 to 35000 ms later |
| `PresenceLaws.AudioHeard` | src/core/presence_tracker.cpp:108-112 | Audio takes the peer online and leaves session, time and an outstanding probe alone |
| `PresenceNetwork.RttBoundsRoundTrip` | src/core/presence_tracker.cpp:86-96 | Over a losing, duplicating, delaying network with fresh nonces, the shown time bounds the true round trip of the answered ping from above |
| `NodeSpec.PublishedLatencyJustified` | src/core/application.cpp:2645-2694 | In every run a published latency means: online, round-trip time and session known, the stored profile of exactly that session, and at least half the round trip |
| `NodeSpec.SynchronizeAligns` | src/core/application.cpp:2659-2676 | After a synchronization a stored profile belongs to an online peer and to the session presence shows |
| `NodeSpec.IncomingIffKnown` | src/core/latency_model.cpp:111-138 | An incoming latency is published exactly when presence and the three needed components are known |
| `NodeSpec.LatencyIsSum` | src/core/latency_model.cpp:111-138 | Both published directions are the sum of their three components plus half the round trip exactly when the sum is below 2^32 microseconds, and -1 exactly when they cannot be measured |
| `NodeSpec.SynchronizeAnnounces` | src/core/application.cpp:2659-2680 | A synchronization follows presence, announces exactly the ready profile, and leaves presence alone |
| `RoomReceivers.RoomReceiver.SynchronizePeerInfo` | src/core/application.cpp:2645-2694 | Both loops together are the abstract synchronization of every peer |
| `RoomReceivers.RoomReceiver.OnPresencePacket` | src/core/application.cpp:2982-3010 | A presence packet reaches one peer and is followed at once by a synchronization of all |
| `RoomReceivers.RoomReceiver.OnPeerInfoPacket` | src/core/application.cpp:3027-3042 | A peer-info packet is judged against the presence of the moment |
| `TextCodec.EscapeRoundTrip` | src/common/text_codec.cpp:48-82 | Escaped text holds no tab, return or newline, and unescaping gives the text back |
| `TextCodec.EscapeCodes` | src/common/text_codec.cpp:51-58 | The four codes, and every other character as it is |
| `TextCodec.EscapeConcat` | src/common/text_codec.cpp:51-58 | Each character is escaped on its own |
| `TextCodec.UnescapeOdd` | src/common/text_codec.cpp:66-80 | A lone backslash at the end stays, one before any other character is dropped |
| `TextCodec.EscapeField` | src/common/text_codec.cpp:48-61 | The loop computes the escaping |
| `TextCodec.UnescapeField` | src/common/text_codec.cpp:63-82 | The loop computes the unescaping, a lone backslash at the end included |
| `TextCodec.SplitFields` | src/common/text_codec.cpp:84-96 | The loop computes the splitting |
| `TextCodec.SplitJoin` | src/common/text_codec.cpp:84-96 | Splitting undoes joining of fields without the separator |
| `TextCodec.JoinSplit` | src/common/text_codec.cpp:84-96 | Joining undoes splitting of any line, and no field holds the separator |
| `TextCodec.SplitStarts` | src/common/text_codec.cpp:84-96 | A line starts with a field and the separator exactly when splitting yields that field as the first of several |
| `TextCodec.RecordRoundTrip` | src/core/telemetry_snapshot.cpp:189-196 | A record of any texts prints on one line and reads back the same |
| `LineBuffers.LineBuffer.Append` | src/common/line_buffer.cpp:12-24 | What is pending then is old plus new text, or, over the limit, the newest part of the new text; storage never exceeds the limit |
| `LineBuffers.AppendedExactly` | src/common/line_buffer.cpp:17-23 | Within the limit nothing is lost; over it the old text goes, and of the new text all but the newest part |
| `LineBuffers.LineBuffer.Next` | src/common/line_buffer.cpp:26-42 | Yields the text up to the first newline, without one return before it, exactly if there is a newline; the rest stays pending, and compaction is invisible |
| `LineBuffers.LineBuffer.PendingBytes` | src/common/line_buffer.cpp:49-51 | The number of unread characters |
| `LineBuffers.CarriedOver` | src/common/line_buffer.cpp:12-42 | Draining after each chunk reads the lines of the whole text |
| `LineBuffers.CutLosesOneLine` | src/common/line_buffer.cpp:17-22 | After an overflow only the line that was cut differs |
| `Telemetry.DiscoveryResults.AddDiscoveredPeer` | src/core/telemetry_snapshot.cpp:128-140 | Stale answers are dropped, sessions stay distinct, and a known contact is not replaced by an unknown one |
| `Telemetry.SerializePeers` | src/core/telemetry_snapshot.cpp:189-196 | The loop prints one record per peer |
| `Telemetry.TelemetryParser.Append` | src/gui/telemetry_protocol.cpp:88-99 | Every line completed by the chunk is read in order, whatever the branches for other lines do with their part, and the revision moves once exactly if one line changed something |
| `Telemetry.TelemetryParser.ParseLine` | src/gui/telemetry_protocol.cpp:110-146 | A line that starts as a discovered peer replaces or joins the list if it is well formed and changes nothing otherwise; any other line goes to the other branches |
| `Telemetry.TelemetryParser.AppendAll` | src/gui/core_process_controller.cpp:266-282 | A sequence of chunks is read like the feeding model says |
| `Telemetry.FragmentationInvisible` | src/common/line_buffer.cpp:12-42 | Any cutting into chunks that fit reads the lines of the uncut text |
| `Telemetry.RecordTransport` | src/core/telemetry_snapshot.cpp:15-28 | Any records printed, cut anywhere and fed through come back identical, with nothing left over |
| `Telemetry.PeerRoundTrip` | src/gui/telemetry_protocol.cpp:117-145 | A printed peer parses as that peer |
| `Telemetry.ParsedIsPrintable` | src/gui/telemetry_protocol.cpp:117-133 | Whatever line is read as a peer names a request, a session and a port other than 0, within their widths |
| `Telemetry.PeersRead` | src/gui/telemetry_protocol.cpp:110-146 | Lines of other kinds neither add nor change a discovered peer, whatever their branches do |
| `Telemetry.RecordKind` | src/gui/telemetry_protocol.cpp:117 | A printed record is taken for a discovered peer exactly when its first field says so and another field follows |
| `DiscoveryRuns.AbsorbedPeers` | src/gui/telemetry_protocol.cpp:88-99 | Reading any lines is taking in the peers among them, in order |
| `DiscoveryRuns.UpsertAllLeads` | src/gui/telemetry_protocol.cpp:134-144 | An earlier list whose keys are the first ones of a later list becomes that later list |
| `DiscoveryRuns.AbsorbSnapshot` | src/core/telemetry_snapshot.cpp:148-199 | A whole snapshot, lines of other kinds first, reads as its discovered peers, and nothing is left over |
| `DiscoveryRuns.RunKeeps` | src/core/telemetry_snapshot.cpp:121-140 | Over any run of begins, answers and snapshots the core list has one entry per session, and what was printed last has its first keys |
| `DiscoveryRuns.DiscoveryDelivered` | src/core/telemetry_snapshot.cpp:148-199 | Over every run of the core with any number of discoveries and snapshots, whatever stands in the other lines, and any cutting of the whole output: for every request the user interface holds exactly the list printed last for it |
| `DiscoveryRuns.RunningListShown` | src/gui/peer_discovery_dialog.cpp:111-126 | After a snapshot of the running discovery was read, filtering by its request gives the core list of that moment |
| `DiscoveryLaws.ListReflectsAnswers` | src/core/telemetry_snapshot.cpp:121-140 | Over every run a session is listed exactly when an answer of it to the running request came since that began, once, in order of first answers, with the last answer that is a known contact, or the last one if none is |
| `DiscoveryLaws.DialogReflectsAnswers` | src/gui/peer_discovery_dialog.cpp:111-126 | The same of what the dialog shows after reading a snapshot, over any cutting of all output |
| `Notification.FlagIsExact` | src/gui/core_process_controller.cpp:274-289 | In every interleaving the flag is set exactly while one notification of this generation is owed, queued or handled, and never two |
| `Notification.NoLostWakeUp` | src/gui/core_process_controller.cpp:235-245 | In every interleaving, whenever no notification is outstanding, the UI has taken the latest revision if and only if no post of this generation failed |
| `Notification.EveryFailedPostLoses` | src/gui/core_process_controller.cpp:283-288 | Whenever in any run the owed post fails, the UI stays behind over every continuation up to the next start and never shows that revision |
| `Notification.FailureIsFinal` | src/gui/core_process_controller.cpp:283-288 | From any state with a failed post, nothing that happens before the next start brings the UI to the latest revision |
| `Notification.FailedPostLoses` | src/gui/core_process_controller.cpp:283-288 | A run whose post fails, ending with the UI behind and nothing outstanding |
| `Notification.StaleMessageIgnored` | src/gui/core_process_controller.cpp:238-240 | A message of an earlier generation clears no flag and shows nothing |
| `Notification.EveryRunCatchesUp` | src/gui/core_process_controller.cpp:235-245 | From the end of any run, once the owed post succeeds and the queued messages are taken, nothing is pending, and the UI shows the latest revision exactly if no post had failed |
| `Notification.CoreProcessController.ReadTelemetry` | src/gui/core_process_controller.cpp:274-282 | The reader's critical section is the modelled step |
| `Notification.CoreProcessController.PostFailed` | src/gui/core_process_controller.cpp:283-288 | The critical section after a failed post is the modelled step |
| `Notification.CoreProcessController.TakeLatestTelemetry` | src/gui/core_process_controller.cpp:235-245 | The UI's critical section is the modelled step; it reports success exactly for the current generation with something parsed |
| `Notification.CoreProcessController.Start` | src/gui/core_process_controller.cpp:110-128 | The resets at a start are the modelled step |
| `DiscoveryCache.DiscoveryReplyCache.ShouldReply` | src/core/network_discovery.cpp:107-121 | With non-decreasing time a request is accepted exactly when every earlier acceptance of its address and number is at least 10000 ms old or followed by at least 64 others, and the stored entries are the most recent unexpired ones |
| `DiscoveryCache.DiscoveryReplyCache.EraseExpired` | src/core/network_discovery.cpp:111-113 | Exactly the unexpired entries stay, in order |
| `DiscoveryCache.RecentAges` | src/core/network_discovery.cpp:107-121 | Expiring the stored entries gives what a fresh look at the whole history gives |
| `DiscoveryCache.RecentGrows` | src/core/network_discovery.cpp:118-119 | Accepting pushes out the oldest of 64 |
| `DiscoveryCache.AnswerKeepsSpaced` | src/core/network_discovery.cpp:114-119 | Accepting only unknown keys keeps repeated answers apart |
| `DiscoveryCache.RecentDistinct` | src/core/network_discovery.cpp:114-117 | The stored keys are distinct |
| `DiscoveryCache.KnownExactly` | src/core/network_discovery.cpp:111-117 | A key is in the cache exactly when an acceptance of it is younger than 10000 ms and among the last 64 |
| `Resampler.ResampleMonoPcm16Linear` | src/core/pcm_audio.cpp:43-81 | The exact failure condition; equal rates copy; otherwise the rounded length and each interpolated sample |
| `Resampler.PositionInside` | src/core/pcm_audio.cpp:66-71 | Every source position lies below the input length |
| `Resampler.SampleBetweenNeighbours` | src/core/pcm_audio.cpp:72-78 | Each output lies between its two neighbouring inputs, so the sample clamp never binds |
| `Resampler.MonotoneInMonotoneOut` | src/core/pcm_audio.cpp:68-79 | Non-decreasing input gives non-decreasing output |
| `Resampler.LengthNearest` | src/core/pcm_audio.cpp:57-64 | The output length is the nearest integer to the exact length, halves up, and at least one |
| `Resampler.SampleOnLine` | src/core/pcm_audio.cpp:68-78 | Each output is within half a unit of the straight line between its two neighbouring inputs |
| `Resampler.SampleOnGrid` | src/core/pcm_audio.cpp:68-78 | A position that falls on an input sample gives exactly that sample |
| `Settings.HotkeyRoundTrip` | src/gui/settings_store.cpp:98-114 | What a written hotkey reads back as, and that it survives exactly when canonical |
| `Settings.UnitsRoundTrip` | src/gui/settings_store.cpp:53-61 | A decimal printed without trailing zeros parses as exactly its value |
| `Settings.DoubleRoundTrip` | src/gui/settings_store.cpp:45-61 | Any real number, negative ones included, reads back rounded to the grid and clamped |
| `Settings.RealSurvives` | src/gui/settings_store.cpp:45-61 | A real number survives exactly when it is in range and on the grid |
| `Settings.NearestIsNearest` | src/gui/settings_store.cpp:53-57 | Printing rounds to the nearest unit, ties to even |
| `Settings.ClampNearest` | src/gui/settings_store.cpp:37-43 | Clamping gives the nearest value in range |
| `Settings.HotkeyMasked` | src/gui/settings_store.cpp:112-113 | Loading a hotkey keeps a key code of one byte and the low four modifier bits, and anything else is no hotkey |
| `SettingsRoundTrip.SaveThenLoad` | src/gui/settings_store.cpp:116-178 | For every settings value, what saving and loading gives: texts unchanged, contacts in order, numbers clamped, decimals rounded, hotkeys masked |
| `SettingsRoundTrip.SettingsRoundTrip` | src/gui/settings_store.cpp:116-178 | Settings survive saving and loading exactly when they are canonical |
| `SettingsRoundTrip.LoadedIsCanonical` | src/gui/settings_store.cpp:150-178 | What was loaded from a saved file is canonical, so a second round changes nothing |
| `SettingsRoundTrip.KeyLine` | src/gui/settings_store.cpp:63-66 | A printed line of a single-valued key sets exactly that field to the value, and is one line |
| `SettingsRoundTrip.ContactAdded` | src/gui/settings_store.cpp:68-94 | A contact line with ten to fourteen fields gives the contact, with defaults for what is missing |
| `SettingsRoundTrip.LegacyContactAdded` | src/gui/settings_store.cpp:68-94 | A nine-field line of an old file gives the contact with its host as its name |
| `SettingsRoundTrip.LineIgnored` | src/gui/settings_store.cpp:156-157 | A line without an equals sign or with an unknown name changes nothing |
| `SettingsRoundTrip.ShortContactIgnored` | src/gui/settings_store.cpp:172-176 | A contact line with fewer than nine fields is ignored |
| `SettingsRoundTrip.OlderSpellings` | src/gui/settings_store.cpp:25-35 | The other accepted spellings of flags and languages |
| `SettingsRoundTrip.Serialize` | src/gui/settings_store.cpp:116-148 | The loop over the contacts prints the modelled text |
| `SettingsRoundTrip.Parse` | src/gui/settings_store.cpp:150-178 | The line loop computes the modelled settings for any text, last line without newline included |
| `SettingsRoundTrip.ParseOne` | src/gui/settings_store.cpp:154-176 | The loop body does what the model of one line does |
| `SettingsRoundTrip.TrimDecimals` | src/gui/settings_store.cpp:58-59 | The trimming loop strips trailing zeros and then a bare point |

## Left out

- Packet and frame counters, revisions of snapshots and times are unbounded naturals: their 64-bit wrap-around is not modelled. Sequence numbers are unbounded too; `ExpectedBounded` shows they cannot wrap while pushed numbers stay below 2^64 - 1.
- Mutexes inside `JitterBuffer`: each public method is one atomic step. `memcpy` of a chunk is one simultaneous assignment.
- The two convenience overloads of `push` and `pop_into` that only convert their arguments.
- PeerInfoNetwork.RunKeeps: does not model the wrap of the 32-bit revision from its maximum to 1 (the class does), because one revision number then stands for two profiles; `WrapIgnored` states what the protocol does there. Sessions of restarted nodes are fresh.
- PresenceNetwork.RttBoundsRoundTrip: assumes that a drawn nonce was not used before; with a repeated nonce an old pong could be matched.
- RoomReceivers: sockets, address lookup, sending of the returned packets, the throttle of 50 ms and the other branches of the receive loop.
- The byte layouts and validators of UDP packets: packets are records, and validity is a predicate.
- `CaptureLatencyEstimator`, `smooth_toward`, level metering, ducking and mixing: floating-point filters.
- Resampler.ResampleMonoPcm16Linear: exact fractions instead of `long double`, so rounding of positions is not modelled, and lengths that fit 64 bits unsigned but not `llround` are not treated apart.
- Settings.DoubleRoundTrip: real numbers instead of `double`, printed to the nearest decimal with ties to even; hexadecimal, exponent, infinity and NaN spellings of `parse_double` count as malformed, and a number that rounds to zero from below prints without its sign.
- Settings.HotkeyRoundTrip: a NUL character inside a numeric text, where the C conversion functions stop reading, is not modelled.
- Conversion between UTF-8 and UTF-16, reading and writing of the settings file itself: text is a sequence of code points.
- Telemetry.TelemetryParser.ParseLine: the branches for audio endpoints, levels, presence, latency and discovery errors are a parameter, any function of their part of the snapshot and the line; what they compute is not modelled.
- DiscoveryRuns.DiscoveryDelivered: request numbers are taken as new for every discovery, as `next_request_id` intends, and the output is read up to the end of a snapshot; a write that fails is not modelled.
- Notification: processes, pipes, threads and the message loop; joining the old reader before a start is a condition of the start step. A post and a critical section are atomic.
- Dialogs, painting, overlay, tray, keyboard hooks, localization, `PeerRouter`, `RoomMixer`, `ContactMeterBank` and the command-line options: long branching with little state.
