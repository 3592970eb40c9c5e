# packet-play playback engine, modelled in Dafny

packet-play replays a pcap capture over UDP. It keeps the captured gaps
between packets, and a controller can play, pause, rewind or quit while it
runs. This project models the engine in `src/player.rs`:

- `Pcap` (`pcap.dfy`): the recording the engine consumes. This covers the file
  header, the packet records and the two timestamp units, microseconds
  (magic `0xA1B2C3D4`) and nanoseconds (magic `0xA1B23C4D`).
- `Clock` (`clock.dfy`): `duration_from_timestamp`, `Duration::new` and the
  saturating sleep computed before each send. Durations are whole nanoseconds
  (`nat`).
- `Engine` (`engine.dfy`): the state machine of `Player::run`, as a class
  `Player`. Its fields are the state, the cursor into the packets, the
  previous timestamp, the elapsed playback time, whether the loop timer has
  started, and whether the loop still runs. Three logs stand in for the
  channels and the socket: `events` (what the observers receive), `sent` (the
  payloads transmitted) and `sleeps` (each computed wait). One loop
  iteration is `HandleCommand` (one poll of the command channel) followed by
  `Act` (the action of the current state), together `Step`. `Run` rejects
  pcapng files and `Replay` drives the loop over a finite script of polls
  and loop timings.
- `Builder` (`builder.dfy`): `PlayerBuilder`, its six setters and the
  completeness check of `build`.
- `Scenario` (`scenario.dfy`): a three-packet playback with its exact event,
  sleep and send logs.

The model follows the code of `src/player.rs`, including where its
behaviour may be surprising:

- A position event carries the 0-based index of the packet just sent
  (`src/player.rs:143-148`). So the last packet of three reports position 2,
  not 3.
- Pause while already paused emits `StateChanged(Paused)` again. Every
  applied command emits one state change, even when the state stays the same.
- An empty recording is not handled: `first().unwrap()` panics. Such a
  recording is excluded by a precondition, as are a packet stamped before the
  first one (the `Duration` subtractions would panic) and a payload shorter
  than the stripped headers (the slice would panic).
- A failed send panics (`expect`); it is not reported as an error event.

## Model

| member | source | states |
|---|---|---|
| `Clock.DurationNewCarries` | src/player.rs:198 | `Duration::new(s, n)` has s plus n div 10^9 whole seconds and n mod 10^9 sub-second nanoseconds, so the span is exactly s*10^9 + n ns |
| `Clock.OverflowingMul` | src/player.rs:188-190 | `u32::overflowing_mul`: the flag is set iff the product reaches 2^32; without it the product is exact; the result is always congruent to the product modulo 2^32 |
| `Clock.TimestampParts` | src/player.rs:187-197 | nanosecond files pass the fields unchanged; for microsecond files the seconds are ts_secs + 1 iff fraction*1000 overflows u32 and ts_secs otherwise, and the nanoseconds are congruent to fraction*1000 modulo 2^32 |
| `Clock.DurationFromTimestamp` | src/player.rs:186-199 | a nanosecond timestamp is ts_secs*10^9 + fraction, with no multiplication; a microsecond timestamp equals the true ts_secs*10^9 + fraction*1000 exactly when the u32 multiplication does not overflow |
| `Clock.MicrosOverflowIsInexact` | src/player.rs:189-197 | after any number of wraps, the one carried second never equals the true duration |
| `Clock.MicrosInRangeIsExact` | src/player.rs:188-190 | a well-formed microsecond fraction (below 10^6) gives the exact duration |
| `Clock.SaturatingSub` | src/player.rs:129 | a - b when a > b, otherwise zero |
| `Clock.SleepBefore` | src/player.rs:129-135 | the sleep is zero iff the packet's timestamp is at most the previous timestamp plus the loop time; otherwise it closes the gap exactly; it is zero for an out-of-order packet; loop time plus sleep always covers the captured gap |
| `Clock.TimestampPartsAsWritten` | src/player.rs:193-197 | the code as written, with `ts_secs + 1` in u32: same nanoseconds as TimestampParts; its seconds are always TimestampParts' seconds modulo 2^32, hence the same below the last u32 second |
| `Clock.DurationFromTimestampAsWritten` | src/player.rs:186-199 | `duration_from_timestamp` as written equals DurationFromTimestamp for nanosecond files, for microsecond fractions that do not overflow, and for every second below 2^32-1 |
| `Clock.SecondsIncrementWraps` | src/player.rs:193-197 | at ts_secs = 2^32-1 with fraction 4294968, the as-written seconds wrap to 0, giving an earlier duration than the same second with fraction 0; the widened version gives a later one |
| `Engine.PolledState` | src/player.rs:83-113 | a poll selects a new state independently of the current one; no state for an empty poll or Unspecified; Playing iff Play; Paused iff Pause; Initial iff Rewind; Quit iff Quit or disconnection; never Finished |
| `Engine.IntakeEvents` | src/player.rs:91-116 | no event iff the poll selects no state; two events for Rewind and for a disconnection, one for any other state-selecting poll; the state change is last; Rewind first reports position 0 with zero elapsed; a disconnection first reports CommandChannelError; never QuitCommanded |
| `Engine.Player.constructor` | src/player.rs:65-77 | state Initial at cursor 0; each packet's timestamp is its DurationFromTimestamp; total duration = last - first timestamp; events are exactly Ready, StateChanged(Initial), PositionChanged(0, n, 0, total); nothing sent |
| `Engine.Player.HandleCommand` | src/player.rs:83-116 | the new state is the polled one, whatever the old state; the events gain exactly IntakeEvents; Rewind resets cursor, previous timestamp and elapsed time; nothing else changes; the invariant Valid is kept |
| `Engine.Player.RewindToStart` | src/player.rs:91-99 | cursor back to 0, previous timestamp = the first packet's, elapsed = 0, one PositionChanged(0, n, 0, total); state, sends and sleeps unchanged |
| `Engine.Player.Act` | src/player.rs:120-166 | Playing with a packet left: the effects of SendNextPacket. Playing with none left: only StateChanged(Finished), state Finished. Initial, Paused and Finished change nothing. Quit: only QuitCommanded, and the loop stops. Valid is kept |
| `Engine.Player.SendNextPacket` | src/player.rs:126-153 | the cursor advances by one; previous timestamp = the packet's; elapsed = its timestamp - first; one sleep SleepBefore(ts, previous, loop time, or 0 before the first send); one PositionChanged(i, n, elapsed, total) for 0-based i; the payload without STRIP_HEADERS_INDEX bytes is sent |
| `Engine.Player.Step` | src/player.rs:81-171 | the whole effect of one loop iteration: with `mid` the polled state (the old one if none), Playing with a packet left sends it (cursor + 1, one sleep, its position event, its stripped payload, and the loop timer started); Playing with none left switches to Finished; any other `mid` sends nothing and becomes the state, with the cursor reset by Rewind; events are the intake events then the action's event (QuitCommanded for Quit); Valid is kept; the loop stops iff the poll is Quit or a disconnection |
| `Engine.Run` | src/player.rs:54-61 | a pcapng recording yields only Error(FileTypeNotSupported) and sends nothing; a pcap recording gives what Replay gives |
| `Engine.Replay` | src/player.rs:65-172 | the log starts with the three start-up events, with the total duration from first to last packet; at most one payload is sent per iteration; playback stops iff the script holds Quit or a disconnection, and then QuitCommanded is the last event and otherwise absent |
| `Builder.NewBuilder` | src/player.rs:174-183 | every setting is unset, so the builder is incomplete |
| `Builder.WithRecording` | src/player.rs:211-214 | sets the recording, leaves the other five settings |
| `Builder.WithDestination` | src/player.rs:216-221 | sets the destination, leaves the other five settings |
| `Builder.WithSourcePort` | src/player.rs:223-228 | sets the source port, leaves the other five settings |
| `Builder.WithTtl` | src/player.rs:230-235 | sets the TTL, leaves the other five settings |
| `Builder.WithCmdRx` | src/player.rs:237-242 | sets the command receiver, leaves the other five settings |
| `Builder.WithEventTx` | src/player.rs:244-249 | sets the event sender, leaves the other five settings |
| `Builder.Build` | src/player.rs:251-268 | PlayerInitError iff any of the six settings is missing; otherwise a player with exactly the supplied settings, in state Initial |
| `Builder.BuildAfterAllSetters` | src/cli.rs:39-46 | the setter chain the terminal front end uses builds a player with those settings |
| `Scenario.PlayThreePackets` | src/player.rs:65-153 | after Play and three iterations over packets stamped 0 s, 0.5 s and 1.2 s, all three are sent and reported at positions 0, 1 and 2 |
| `Scenario.ThreePacketPlayback` | src/player.rs:65-158 | the full event log of that playback through Finished; sleeps 0, 499 ms and 699 ms for 1 ms of loop time; the three stripped payloads, in order |

The invariant `Engine.Player.Valid` holds across the whole loop. It says
these things:

- `Engine.Player.Recorded` holds: there is one timestamp per packet and
  none is before the first; every payload is at least as long as the
  stripped headers; the total duration runs from the first packet to the
  last.
- The three start-up events are the first entries of the event log.
- A player that has left the loop is in state Quit.
- The previous timestamp is that of the last packet sent since the last
  rewind, or the first packet's if none was sent.
- The elapsed time is the previous timestamp minus the first.
- Finished is reached only with the recording exhausted.
- The last `cursor` entries of `sent` are the stripped payloads of the
  packets before the cursor, in capture order, with one sleep per send.

## Findings

| source | as written | input that shows it | evidently intended | confidence | as-written member | corrected member |
|---|---|---|---|---|---|---|
| src/player.rs:193-197 | `packet.ts_secs + 1` is computed in u32 before the cast to u64 | LeMicros, ts_secs = 4294967295, ts_secs_fraction = 4294968: the increment wraps to 0 seconds (release build; a debug build panics), so the duration is 704 ns instead of 2^32 s + 704 ns | widen first (`ts_secs as u64 + 1`), so the carried second is never lost | not executed; medium: follows from Rust's u32 arithmetic rules | `Clock.TimestampPartsAsWritten`, `Clock.SecondsIncrementWraps` | `Clock.TimestampParts` |

## Left out

- Socket bind, broadcast and TTL setup, and `send_to` with its panic on failure (src/player.rs:48-52, 150-153): OS I/O. Each send is recorded in `sent`.
- Real sleeping and `Instant` measurement (src/player.rs:131-137): the wall time since the last send is the `loopDuration` argument, and the computed sleep is recorded in `sleeps`.
- The mpsc channels and the thread spawned by `build` (src/player.rs:19-20, 269-271): each poll outcome is an argument, and events are appended to `events`. The `unwrap` on sending the CommandChannelError event (src/player.rs:110) assumes the event channel stays connected.
- The relative order of a sleep, its position event and its send within one iteration: the three logs are separate.
- STRIP_HEADERS_INDEX (src/player.rs:46): the header-length constants are not part of this model, so the index is a value given to the `Player` constructor.
- The per-packet call of `duration_from_timestamp` (src/player.rs:128): the function depends on the packet alone, so the constructor computes every packet's timestamp once, into `stamps`.
- Engine.Replay: states the start-up prefix, the one-send-per-iteration bound and when the loop stops, not the full logs of a whole run. The exact effect of each iteration is stated by `Engine.Player.Step`.
- The `ts_secs + 1` wrap at the last u32 second (src/player.rs:193-197, see Findings): the `Player` constructor computes each timestamp with the widened `Clock.DurationFromTimestamp`, so the engine models the intended behaviour. At ts_secs = 2^32-1 with a wrapping microsecond fraction the code as written instead gives a stamp 2^32 s too early (release build) or panics (debug build); only `Clock.DurationFromTimestampAsWritten` models that.
- Pcap parsing (src/model/pcap.rs:35-64): the parsing functions are `todo!()` stubs, so only the record shapes are modelled. The timestamp units follow src/player.rs:188-191, not the `MS`/`NS` variants of src/model/pcap.rs:22-25.
- The `Display` impl of `PlayerState` (src/player.rs:32-42): string formatting only.
- src/cli.rs, src/gui.rs, src/main.rs, src/constants.rs: terminal and graphical front ends, an older prototype and constants. None of them holds engine logic.
