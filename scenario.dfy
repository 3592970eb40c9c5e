/**
 * A controller's view of one playback: a nanosecond recording of three
 * packets captured at 0 s, 0.5 s and 1.2 s, played to the end.
 */
module Scenario {
  import opened Pcap
  import opened Clock
  import opened Engine

  const MS: nat := 1_000_000
  const TOTAL: nat := 1200 * MS

  function Startup(): seq<Event>
  {
    [PlayerReady, PlayerStateChanged(Initial), PlayerPositionChanged(0, 3, 0, TOTAL)]
  }

  /** The player over the three packets after Play and one loop iteration: the first packet sent. */
  method StartPlayback() returns (player: Player)
    ensures fresh(player) && player.Valid() && player.running && player.loopTimerStarted
    ensures player.stamps == [0, 500 * MS, TOTAL] && player.stripHeadersIndex == 2
    ensures player.packets == [
      PcapPacketRecord(0, 0, 3, 3, [0xAA, 0xBB, 10]),
      PcapPacketRecord(0, 500 * MS, 3, 3, [0xAA, 0xBB, 11]),
      PcapPacketRecord(1, 200 * MS, 3, 3, [0xAA, 0xBB, 12])]
    ensures player.state == Playing && player.cursor == 1 && player.previousTs == 0
    ensures player.events == Startup() + [PlayerStateChanged(Playing), PlayerPositionChanged(0, 3, 0, TOTAL)]
    ensures player.sleeps == [0] && player.sent == [[10]]
  {
    var header := PcapFileHeader(BeNanos, 2, 4, 65535, 1, 0, false);
    var packets := [
      PcapPacketRecord(0, 0, 3, 3, [0xAA, 0xBB, 10]),
      PcapPacketRecord(0, 500 * MS, 3, 3, [0xAA, 0xBB, 11]),
      PcapPacketRecord(1, 200 * MS, 3, 3, [0xAA, 0xBB, 12])];
    assert DurationFromTimestamp(BeNanos, packets[0]) == 0;
    assert DurationFromTimestamp(BeNanos, packets[1]) == 500 * MS;
    assert DurationFromTimestamp(BeNanos, packets[2]) == TOTAL;
    player := new Player(Pcap(header, packets), 2);
    assert player.stamps == [0, 500 * MS, TOTAL];
    player.HandleCommand(Received(Play));
    player.Act(MS);
  }

  /**
   * Two more loop iterations of 1 ms each: all three packets sent, still
   * Playing.
   */
  method PlayThreePackets() returns (player: Player)
    ensures fresh(player) && player.Valid() && player.running
    ensures player.state == Playing && player.cursor == |player.packets| == 3
    ensures player.events == Startup() + [
      PlayerStateChanged(Playing),
      PlayerPositionChanged(0, 3, 0, TOTAL),
      PlayerPositionChanged(1, 3, 500 * MS, TOTAL),
      PlayerPositionChanged(2, 3, TOTAL, TOTAL)]
    ensures player.sleeps == [0, 499 * MS, 699 * MS]
    ensures player.sent == [[10], [11], [12]]
  {
    player := StartPlayback();
    player.HandleCommand(Empty);
    player.Act(MS);
    assert player.state == Playing && player.cursor == 2 && player.previousTs == 500 * MS;
    assert player.sleeps == [0, 499 * MS] && player.sent == [[10], [11]];
    player.HandleCommand(Empty);
    player.Act(MS);
  }

  /**
   * Polls Play, then nothing four times, with the loop taking 1 ms of its
   * own time per iteration. Positions are the 0-based indices of the packets
   * sent, the first send does not wait, the later sleeps are the captured
   * gaps less the loop's millisecond, and the iteration after the last send
   * reports Finished.
   */
  method ThreePacketPlayback() returns (events: seq<Event>, sleeps: seq<nat>, sent: seq<seq<byte>>)
    ensures events == [
      PlayerReady, PlayerStateChanged(Initial), PlayerPositionChanged(0, 3, 0, TOTAL),
      PlayerStateChanged(Playing),
      PlayerPositionChanged(0, 3, 0, TOTAL),
      PlayerPositionChanged(1, 3, 500 * MS, TOTAL),
      PlayerPositionChanged(2, 3, TOTAL, TOTAL),
      PlayerStateChanged(Finished)]
    ensures sleeps == [0, 499 * MS, 699 * MS]
    ensures sent == [[10], [11], [12]]
  {
    var player := PlayThreePackets();
    player.HandleCommand(Empty);
    player.Act(MS);
    events, sleeps, sent := player.events, player.sleeps, player.sent;
  }
}
