/**
 * The playback engine of src/player.rs: the state machine `Player::run`
 * drives over a pcap recording. Each iteration of its loop polls the command
 * channel once (HandleCommand) and then acts on the current state (Act).
 * Sleeping, the socket and the channels are replaced by logs: `sleeps` holds
 * each computed sleep, `sent` each transmitted payload, `events` each event
 * pushed to the observers.
 */
module Engine {
  import opened Wrappers
  import opened Pcap
  import opened Clock

  datatype PlayerState = Initial | Playing | Paused | Finished | Quit

  /** Commands a controller can send; `Unspecified` stands for unrecognised input. */
  datatype Command = Play | Pause | Rewind | Quit | Unspecified

  /** The outcome of one non-blocking `try_recv` on the command channel. */
  datatype Poll = Received(command: Command) | Empty | Disconnected

  datatype Error = FileTypeNotSupported | CommandChannelError | PlayerInitError

  datatype Event =
    | PlayerReady
    | PlayerStateChanged(state: PlayerState)
    | PlayerPositionChanged(position: nat, length: nat, timePosition: nat, totalDuration: nat)
    | Error(error: Error)
    | QuitCommanded

  /** Whether a poll ends playback: an explicit Quit or a lost controller. */
  predicate StopsPlayback(poll: Poll)
  {
    poll == Received(Command.Quit) || poll == Disconnected
  }

  /**
   * The state a poll switches to, if any. It depends on the poll alone, never
   * on the current state, and a command never selects Finished.
   */
  function PolledState(poll: Poll): (next: Option<PlayerState>)
    ensures next.None? <==> poll == Empty || poll == Received(Unspecified)
    ensures next == Some(PlayerState.Quit) <==> StopsPlayback(poll)
    ensures next == Some(Playing) <==> poll == Received(Play)
    ensures next == Some(Paused) <==> poll == Received(Pause)
    ensures next == Some(Initial) <==> poll == Received(Rewind)
    ensures next != Some(Finished)
  {
    match poll
    case Received(Play) => Some(Playing)
    case Received(Pause) => Some(Paused)
    case Received(Rewind) => Some(Initial)
    case Received(Quit) => Some(PlayerState.Quit)
    case Received(Unspecified) => None
    case Empty => None
    case Disconnected => Some(PlayerState.Quit)
  }

  /**
   * The events the command intake emits for one poll, for a recording of
   * `length` packets lasting `total` nanoseconds: nothing when the poll
   * changes no state, otherwise exactly one state change, last.
   */
  function IntakeEvents(poll: Poll, length: nat, total: nat): (evs: seq<Event>)
    ensures PolledState(poll).None? <==> evs == []
    ensures |evs| == (if poll == Received(Rewind) || poll == Disconnected then 2
                      else if PolledState(poll).Some? then 1 else 0)
    ensures PolledState(poll).Some? ==>
      evs[|evs| - 1] == PlayerStateChanged(PolledState(poll).value)
    ensures forall k :: 0 <= k < |evs| - 1 ==> !evs[k].PlayerStateChanged?
    ensures QuitCommanded !in evs
    ensures poll == Received(Rewind) ==> evs[0] == PlayerPositionChanged(0, length, 0, total)
    ensures poll == Disconnected ==> evs[0] == Error(CommandChannelError)
  {
    match poll
    case Received(Rewind) =>
      [PlayerPositionChanged(0, length, 0, total), PlayerStateChanged(Initial)]
    case Disconnected =>
      [Error(CommandChannelError), PlayerStateChanged(PlayerState.Quit)]
    case Received(Play) => [PlayerStateChanged(Playing)]
    case Received(Pause) => [PlayerStateChanged(Paused)]
    case Received(Quit) => [PlayerStateChanged(PlayerState.Quit)]
    case Received(Unspecified) => []
    case Empty => []
  }

  /** The three events run emits before handling any command. */
  function StartupEvents(length: nat, total: nat): seq<Event>
  {
    [PlayerReady, PlayerStateChanged(Initial), PlayerPositionChanged(0, length, 0, total)]
  }

  /**
   * What run needs of a recording so that none of its `unwrap`s, `Duration`
   * subtractions or payload slices panic: at least one packet, no packet
   * stamped before the first, and every payload at least as long as the
   * stripped headers.
   */
  predicate Playable(packets: seq<PcapPacketRecord>, unit: TimestampUnit, stripHeadersIndex: nat)
  {
    && |packets| > 0
    && (forall i {:trigger DurationFromTimestamp(unit, packets[i])} :: 0 <= i < |packets| ==>
          DurationFromTimestamp(unit, packets[i]) >= DurationFromTimestamp(unit, packets[0]))
    && (forall i :: 0 <= i < |packets| ==> |packets[i].packetData| >= stripHeadersIndex)
  }

  class Player {
    const packets: seq<PcapPacketRecord>
    const unit: TimestampUnit
    /** STRIP_HEADERS_INDEX: link, network and transport header lengths plus one. */
    const stripHeadersIndex: nat
    /** Each packet's `duration_from_timestamp`, which depends on the packet alone. */
    const stamps: seq<nat>
    const firstTs: nat
    const totalDuration: nat

    var state: PlayerState
    /** Index of the next packet the `packets` iterator yields. */
    var cursor: nat
    var previousTs: nat
    var playbackElapsed: nat
    /** Whether `loop_time_start` is set, which it is from the first send on. */
    var loopTimerStarted: bool
    /** False once the loop has broken out on Quit. */
    var running: bool
    var events: seq<Event>
    var sent: seq<seq<byte>>
    var sleeps: seq<nat>

    /** The bytes sent for packet k: its payload without the headers. */
    function Stripped(k: nat): seq<byte>
      requires k < |packets| && |packets[k].packetData| >= stripHeadersIndex
    {
      packets[k].packetData[stripHeadersIndex..]
    }

    /**
     * What the constructor fixes for good: one timestamp per packet, none
     * before the first, every payload at least as long as the headers, and
     * the total duration from the first packet to the last.
     */
    ghost predicate Recorded()
    {
      && 0 < |packets| == |stamps|
      && (forall i :: 0 <= i < |packets| ==>
            stamps[i] >= stamps[0] && |packets[i].packetData| >= stripHeadersIndex)
      && firstTs == stamps[0]
      && totalDuration == stamps[|stamps| - 1] - firstTs
    }

    /**
     * The loop's invariant: previousTs is the timestamp of the packet last
     * sent since the last rewind (the first packet's when none was), the
     * elapsed playback time is measured from the first packet, Finished is
     * only reached with the recording exhausted, and the payloads sent since
     * the last rewind are exactly the stripped payloads of the packets before
     * the cursor, in capture order, one sleep computed for each.
     */
    ghost predicate Valid()
      reads this
    {
      && Recorded()
      && cursor <= |packets|
      && previousTs == (if cursor == 0 then firstTs else stamps[cursor - 1])
      && playbackElapsed == previousTs - firstTs
      && (state == Finished ==> cursor == |packets|)
      && (!running ==> state == PlayerState.Quit)
      && |sleeps| == |sent|
      && cursor <= |sent|
      && (forall k {:trigger Stripped(k)} :: 0 <= k < cursor ==>
            sent[|sent| - cursor + k] == Stripped(k))
      && |events| >= 3
      && events[..3] == StartupEvents(|packets|, totalDuration)
    }

    /**
     * A player built in state Initial over a pcap recording, after run's
     * preamble: total duration is last minus first timestamp, and the events
     * Ready, StateChanged(Initial) and a position at packet 0 are emitted.
     */
    constructor (pcap: Pcap, stripHeadersIndex: nat)
      requires Playable(pcap.packets, pcap.header.magicNumber, stripHeadersIndex)
      ensures Valid()
      ensures packets == pcap.packets && unit == pcap.header.magicNumber
      ensures this.stripHeadersIndex == stripHeadersIndex
      ensures forall i {:trigger DurationFromTimestamp(unit, packets[i])} :: 0 <= i < |packets| ==>
        stamps[i] == DurationFromTimestamp(unit, packets[i])
      ensures firstTs == DurationFromTimestamp(unit, packets[0])
      ensures totalDuration == DurationFromTimestamp(unit, packets[|packets| - 1]) - firstTs
      ensures state == Initial && cursor == 0 && running && !loopTimerStarted
      ensures previousTs == firstTs && playbackElapsed == 0
      ensures events == [PlayerReady, PlayerStateChanged(Initial),
                         PlayerPositionChanged(0, |packets|, 0, totalDuration)]
      ensures sent == [] && sleeps == []
    {
      packets := pcap.packets;
      unit := pcap.header.magicNumber;
      this.stripHeadersIndex := stripHeadersIndex;
      stamps := seq(|pcap.packets|, i requires 0 <= i < |pcap.packets| =>
                      DurationFromTimestamp(pcap.header.magicNumber, pcap.packets[i]));
      var first := DurationFromTimestamp(pcap.header.magicNumber, pcap.packets[0]);
      var last := DurationFromTimestamp(pcap.header.magicNumber, pcap.packets[|pcap.packets| - 1]);
      firstTs := first;
      totalDuration := last - first;
      state := Initial;
      cursor := 0;
      previousTs := first;
      playbackElapsed := 0;
      loopTimerStarted := false;
      running := true;
      events := [PlayerReady, PlayerStateChanged(Initial),
                 PlayerPositionChanged(0, |pcap.packets|, 0, last - first)];
      sent := [];
      sleeps := [];
    }

    /**
     * The command intake of one loop iteration. A poll that names a state
     * switches to it whatever the current state; Rewind also moves the
     * cursor back to the first packet and reports position 0. Nothing is
     * sent and no sleep is computed.
     */
    method HandleCommand(poll: Poll)
      requires Valid() && running
      modifies this
      ensures Valid() && running
      ensures state == PolledState(poll).GetOr(old(state))
      ensures events == old(events) + IntakeEvents(poll, |packets|, totalDuration)
      ensures poll == Received(Rewind) ==>
        cursor == 0 && previousTs == firstTs && playbackElapsed == 0
      ensures poll != Received(Rewind) ==>
        cursor == old(cursor) && previousTs == old(previousTs)
        && playbackElapsed == old(playbackElapsed)
      ensures sent == old(sent) && sleeps == old(sleeps)
      ensures loopTimerStarted == old(loopTimerStarted)
      ensures state == PlayerState.Quit <==>
        StopsPlayback(poll) || (old(state) == PlayerState.Quit && PolledState(poll).None?)
      ensures QuitCommanded in events <==> QuitCommanded in old(events)
    {
      var next := PolledState(poll);
      if poll == Received(Rewind) {
        RewindToStart();
      } else if poll == Disconnected {
        events := events + [Error(CommandChannelError)];
        assert events[..3] == old(events)[..3];
      }
      if next.Some? {
        ghost var before := events;
        events := events + [PlayerStateChanged(next.value)];
        assert events[..3] == before[..3];
        state := next.value;
      }
    }

    /**
     * One iteration of run's loop: the command intake, then the action of
     * the resulting state. The loop keeps running unless the poll was a Quit
     * or a disconnection, in which case QuitCommanded is the last event; at
     * most one payload is sent.
     */
    method Step(poll: Poll, loopDuration: nat)
      requires Valid() && running && state != PlayerState.Quit
      modifies this
      ensures Valid()
      ensures running == !StopsPlayback(poll)
      ensures running ==> state != PlayerState.Quit
      ensures QuitCommanded in events <==> QuitCommanded in old(events) || !running
      ensures !running ==> events[|events| - 1] == QuitCommanded
      ensures |sent| <= |old(sent)| + 1
      ensures var mid := PolledState(poll).GetOr(old(state));
        var sends := mid == Playing && old(cursor) < |packets|;
        && loopTimerStarted == (old(loopTimerStarted) || sends)
        && state == (if mid == Playing && !sends then Finished else mid)
        && cursor == (if sends then old(cursor) + 1
                      else if poll == Received(Rewind) then 0 else old(cursor))
        && sent == old(sent) + (if sends then [packets[old(cursor)].packetData[stripHeadersIndex..]] else [])
        && sleeps == old(sleeps) + (if sends then [SleepBefore(stamps[old(cursor)], old(previousTs),
                                      if old(loopTimerStarted) then loopDuration else 0)] else [])
        && events == old(events) + IntakeEvents(poll, |packets|, totalDuration)
                     + (if sends then [PlayerPositionChanged(old(cursor), |packets|,
                                         stamps[old(cursor)] - firstTs, totalDuration)]
                        else if mid == Playing then [PlayerStateChanged(Finished)]
                        else if mid == PlayerState.Quit then [QuitCommanded] else [])
    {
      HandleCommand(poll);
      Act(loopDuration);
    }

    /**
     * Rewind's side effects: a fresh packet iterator, the first packet's
     * timestamp as the previous one, zero elapsed time, and a position event
     * at packet 0. The state is switched to Initial by the caller.
     */
    method RewindToStart()
      requires Valid() && running
      modifies this
      ensures running && state == old(state)
      ensures cursor == 0 && previousTs == firstTs && playbackElapsed == 0
      ensures events == old(events) + [PlayerPositionChanged(0, |packets|, 0, totalDuration)]
      ensures sent == old(sent) && sleeps == old(sleeps)
      ensures loopTimerStarted == old(loopTimerStarted)
    {
      cursor := 0;
      previousTs := stamps[0];
      playbackElapsed := 0;
      events := events + [PlayerPositionChanged(0, |packets|, playbackElapsed, totalDuration)];
      assert events[..3] == old(events)[..3];
    }

    /**
     * The action of one loop iteration on the current state. Playing with a
     * packet left sleeps, reports that packet's 0-based position and sends
     * its stripped payload; Playing with none left switches to Finished;
     * Quit reports QuitCommanded and leaves the loop; the other states do
     * nothing. `loopDuration` is the wall time since the previous send,
     * which counts only once a send has happened.
     */
    method Act(loopDuration: nat)
      requires Valid() && running
      modifies this
      ensures Valid()
      ensures running == (old(state) != PlayerState.Quit)
      ensures running ==> state != PlayerState.Quit
      ensures !running ==> events[|events| - 1] == QuitCommanded
      ensures QuitCommanded in events <==> QuitCommanded in old(events) || !running
      ensures |sent| <= |old(sent)| + 1
      ensures old(state) == Playing && old(cursor) < |packets| ==>
        var ts := stamps[old(cursor)];
        && cursor == old(cursor) + 1
        && previousTs == ts && playbackElapsed == ts - firstTs
        && state == Playing && loopTimerStarted
        && sleeps == old(sleeps) + [SleepBefore(ts, old(previousTs),
                                                if old(loopTimerStarted) then loopDuration else 0)]
        && events == old(events)
                     + [PlayerPositionChanged(old(cursor), |packets|, ts - firstTs, totalDuration)]
        && sent == old(sent) + [packets[old(cursor)].packetData[stripHeadersIndex..]]
      ensures old(state) == Playing && old(cursor) == |packets| ==>
        && state == Finished && events == old(events) + [PlayerStateChanged(Finished)]
        && cursor == old(cursor) && previousTs == old(previousTs)
        && playbackElapsed == old(playbackElapsed) && loopTimerStarted == old(loopTimerStarted)
        && sent == old(sent) && sleeps == old(sleeps)
      ensures old(state) != Playing ==>
        && state == old(state) && cursor == old(cursor) && previousTs == old(previousTs)
        && playbackElapsed == old(playbackElapsed) && loopTimerStarted == old(loopTimerStarted)
        && sent == old(sent) && sleeps == old(sleeps)
        && events == old(events) + (if old(state) == PlayerState.Quit then [QuitCommanded] else [])
    {
      match state {
        case Initial =>
        case Playing =>
          if cursor < |packets| {
            SendNextPacket(loopDuration);
          } else {
            events := events + [PlayerStateChanged(Finished)];
            state := Finished;
          }
        case Paused =>
        case Finished =>
        case Quit =>
          events := events + [QuitCommanded];
          running := false;
      }
    }

    /**
     * Playing with a packet left: sleep for the captured gap less the loop's
     * own time, report the packet's 0-based position, send its payload
     * without the headers, and move the cursor past it.
     */
    method SendNextPacket(loopDuration: nat)
      requires Valid() && running && state == Playing && cursor < |packets|
      modifies this
      ensures Valid() && running && state == Playing && loopTimerStarted
      ensures var ts := stamps[old(cursor)];
        && cursor == old(cursor) + 1
        && previousTs == ts && playbackElapsed == ts - firstTs
        && sleeps == old(sleeps) + [SleepBefore(ts, old(previousTs),
                                                if old(loopTimerStarted) then loopDuration else 0)]
        && events == old(events)
                     + [PlayerPositionChanged(old(cursor), |packets|, ts - firstTs, totalDuration)]
        && sent == old(sent) + [packets[old(cursor)].packetData[stripHeadersIndex..]]
    {
      var i, packet := cursor, packets[cursor];
      cursor := cursor + 1;
      var currentTs := stamps[i];
      var tsDuration := SaturatingSub(currentTs, previousTs);
      var elapsed := if loopTimerStarted then loopDuration else 0;
      sleeps := sleeps + [SaturatingSub(tsDuration, elapsed)];
      loopTimerStarted := true;
      previousTs := currentTs;
      playbackElapsed := currentTs - firstTs;
      events := events + [PlayerPositionChanged(i, |packets|, playbackElapsed, totalDuration)];
      sent := sent + [Stripped(i)];
      assert events[..3] == old(events)[..3];
    }
  }

  /**
   * `Player::run` driven by a finite script: `polls[k]` is what the k-th
   * loop iteration receives and `loopDurations[k]` the wall time it measures.
   * A pcapng recording yields a single unsupported-file error; a pcap
   * recording is replayed by Replay.
   */
  method Run(recording: Recording, stripHeadersIndex: nat, polls: seq<Poll>, loopDurations: seq<nat>)
    returns (events: seq<Event>, sent: seq<seq<byte>>, stopped: bool)
    requires |loopDurations| == |polls|
    requires recording.PCAP? ==>
      Playable(recording.pcap.packets, recording.pcap.header.magicNumber, stripHeadersIndex)
    ensures recording.PCAPNG? ==> events == [Error(FileTypeNotSupported)] && sent == [] && stopped
    ensures recording.PCAP? ==>
      && |events| >= 3 && events[..3] == StartupEvents(|recording.pcap.packets|, Span(recording.pcap))
      && |sent| <= |polls|
      && (stopped <==> exists k :: 0 <= k < |polls| && StopsPlayback(polls[k]))
      && (stopped <==> QuitCommanded in events)
      && (stopped ==> events[|events| - 1] == QuitCommanded)
  {
    if recording.PCAPNG? {
      return [Error(FileTypeNotSupported)], [], true;
    }
    events, sent, stopped := Replay(recording.pcap, stripHeadersIndex, polls, loopDurations);
  }

  /**
   * The time between a recording's first and last packet, as run computes
   * `total_duration`; the subtraction panics when the last packet is stamped
   * before the first.
   */
  function Span(pcap: Pcap): nat
    requires |pcap.packets| > 0
    requires DurationFromTimestamp(pcap.header.magicNumber, pcap.packets[|pcap.packets| - 1])
          >= DurationFromTimestamp(pcap.header.magicNumber, pcap.packets[0])
  {
    var unit, packets := pcap.header.magicNumber, pcap.packets;
    DurationFromTimestamp(unit, packets[|packets| - 1]) - DurationFromTimestamp(unit, packets[0])
  }

  /**
   * run's loop over a pcap recording. It starts with the three start-up
   * events, sends at most one payload per iteration, and stops exactly when
   * the script holds a Quit or a disconnection, with QuitCommanded as the
   * last event.
   */
  method Replay(pcap: Pcap, stripHeadersIndex: nat, polls: seq<Poll>, loopDurations: seq<nat>)
    returns (events: seq<Event>, sent: seq<seq<byte>>, stopped: bool)
    requires |loopDurations| == |polls|
    requires Playable(pcap.packets, pcap.header.magicNumber, stripHeadersIndex)
    ensures |events| >= 3 && events[..3] == StartupEvents(|pcap.packets|, Span(pcap))
    ensures |sent| <= |polls|
    ensures stopped <==> exists k :: 0 <= k < |polls| && StopsPlayback(polls[k])
    ensures stopped <==> QuitCommanded in events
    ensures stopped ==> events[|events| - 1] == QuitCommanded
  {
    var player := new Player(pcap, stripHeadersIndex);
    var i := 0;
    while i < |polls| && player.running
      invariant 0 <= i <= |polls|
      invariant fresh(player) && player.Valid()
      invariant |player.sent| <= i
      invariant player.running ==> player.state != PlayerState.Quit
      invariant player.running ==> forall k :: 0 <= k < i ==> !StopsPlayback(polls[k])
      invariant !player.running ==> 0 < i && StopsPlayback(polls[i - 1])
      invariant player.running <==> QuitCommanded !in player.events
      invariant !player.running ==> player.events[|player.events| - 1] == QuitCommanded
    {
      player.Step(polls[i], loopDurations[i]);
      i := i + 1;
    }
    events, sent, stopped := player.events, player.sent, !player.running;
  }
}
