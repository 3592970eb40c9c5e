/**
 * `PlayerBuilder` of src/player.rs: six optional settings and a `build`
 * that refuses to construct a player unless every one is set. The spawned
 * thread is not modelled; a successful build yields the player's settings
 * with the player in its initial state.
 */
module Builder {
  import opened Wrappers
  import opened Pcap
  import opened Engine

  /** A socket address: IP address octets and a port. */
  datatype SocketAddr = SocketAddr(ip: seq<byte>, port: u16)

  /** An end of an mpsc channel, identified by the channel it belongs to. */
  datatype Channel = Channel(id: nat)

  datatype PlayerBuilder = PlayerBuilder(
    recording: Option<Recording>,
    destination: Option<SocketAddr>,
    sourcePort: Option<u16>,
    ttl: Option<u32>,
    cmdRx: Option<Channel>,
    eventTx: Option<Channel>)

  /** The fields of a built `Player`. */
  datatype PlayerConfig = PlayerConfig(
    recording: Recording,
    destination: SocketAddr,
    sourcePort: u16,
    ttl: u32,
    state: PlayerState,
    cmdRx: Channel,
    eventTx: Channel)

  /** `Player::builder()`: nothing set yet. */
  function NewBuilder(): (b: PlayerBuilder)
    ensures !IsComplete(b)
    ensures b.recording.None? && b.destination.None? && b.sourcePort.None?
    ensures b.ttl.None? && b.cmdRx.None? && b.eventTx.None?
  {
    PlayerBuilder(None, None, None, None, None, None)
  }

  predicate IsComplete(b: PlayerBuilder)
  {
    && b.recording.Some? && b.destination.Some? && b.sourcePort.Some?
    && b.ttl.Some? && b.cmdRx.Some? && b.eventTx.Some?
  }

  // The six setters: each sets its own field and leaves the other five.

  function WithRecording(b: PlayerBuilder, recording: Recording): (b': PlayerBuilder)
    ensures b'.recording == Some(recording)
    ensures b'.(recording := b.recording) == b
  {
    b.(recording := Some(recording))
  }

  function WithDestination(b: PlayerBuilder, destination: SocketAddr): (b': PlayerBuilder)
    ensures b'.destination == Some(destination)
    ensures b'.(destination := b.destination) == b
  {
    b.(destination := Some(destination))
  }

  function WithSourcePort(b: PlayerBuilder, sourcePort: u16): (b': PlayerBuilder)
    ensures b'.sourcePort == Some(sourcePort)
    ensures b'.(sourcePort := b.sourcePort) == b
  {
    b.(sourcePort := Some(sourcePort))
  }

  function WithTtl(b: PlayerBuilder, ttl: u32): (b': PlayerBuilder)
    ensures b'.ttl == Some(ttl)
    ensures b'.(ttl := b.ttl) == b
  {
    b.(ttl := Some(ttl))
  }

  function WithCmdRx(b: PlayerBuilder, cmdRx: Channel): (b': PlayerBuilder)
    ensures b'.cmdRx == Some(cmdRx)
    ensures b'.(cmdRx := b.cmdRx) == b
  {
    b.(cmdRx := Some(cmdRx))
  }

  function WithEventTx(b: PlayerBuilder, eventTx: Channel): (b': PlayerBuilder)
    ensures b'.eventTx == Some(eventTx)
    ensures b'.(eventTx := b.eventTx) == b
  {
    b.(eventTx := Some(eventTx))
  }

  /**
   * `PlayerBuilder::build`: PlayerInitError exactly when some setting is
   * missing; otherwise a player holding the supplied settings, in state
   * Initial.
   */
  function Build(b: PlayerBuilder): (r: Result<PlayerConfig, Error>)
    ensures r.Failure? <==> !IsComplete(b)
    ensures r.Failure? ==> r.error == PlayerInitError
    ensures r.Success? ==>
      && r.value.state == Initial
      && Some(r.value.recording) == b.recording
      && Some(r.value.destination) == b.destination
      && Some(r.value.sourcePort) == b.sourcePort
      && Some(r.value.ttl) == b.ttl
      && Some(r.value.cmdRx) == b.cmdRx
      && Some(r.value.eventTx) == b.eventTx
  {
    if b.recording.None? || b.destination.None? || b.sourcePort.None?
       || b.ttl.None? || b.cmdRx.None? || b.eventTx.None?
    then
      Failure(PlayerInitError)
    else
      Success(PlayerConfig(b.recording.value, b.destination.value, b.sourcePort.value,
                           b.ttl.value, Initial, b.cmdRx.value, b.eventTx.value))
  }

  /**
   * Setting all six, in the order the terminal front end uses, builds a
   * player with exactly those settings.
   */
  lemma BuildAfterAllSetters(recording: Recording, destination: SocketAddr,
    sourcePort: u16, ttl: u32, cmdRx: Channel, eventTx: Channel)
    ensures var b := WithEventTx(WithCmdRx(WithTtl(WithSourcePort(WithDestination(
                       WithRecording(NewBuilder(), recording), destination), sourcePort), ttl),
                       cmdRx), eventTx);
            Build(b) == Success(PlayerConfig(recording, destination, sourcePort, ttl,
                                             Initial, cmdRx, eventTx))
  {
  }
}
