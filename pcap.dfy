/**
 * The in-memory pcap recording the player consumes (src/model/pcap.rs and
 * src/model/mod.rs). Parsing is not part of this model; only the record
 * shapes are.
 */
module Pcap {

  const U32_LIMIT: nat := 0x1_0000_0000

  type u8 = x: int | 0 <= x < 0x100
  type u16 = x: int | 0 <= x < 0x1_0000
  type u32 = x: int | 0 <= x < U32_LIMIT
  type byte = u8

  /** The two timestamp resolutions of a pcap file, fixed by its magic number. */
  datatype TimestampUnit =
    | LeMicros  // 0xA1B2C3D4: fraction in microseconds
    | BeNanos   // 0xA1B23C4D: fraction in nanoseconds

  datatype PcapFileHeader = PcapFileHeader(
    magicNumber: TimestampUnit,
    majorVersion: u16,
    minorVersion: u16,
    snapLen: u32,
    linkType: u32,
    frameCyclicSequence: u8,
    fBit: bool)

  datatype PcapPacketRecord = PcapPacketRecord(
    tsSecs: u32,
    tsSecsFraction: u32,
    capturedPacketLength: u32,
    originalPacketLength: u32,
    packetData: seq<byte>)

  datatype Pcap = Pcap(header: PcapFileHeader, packets: seq<PcapPacketRecord>)

  /** A recording is a pcap file or a pcapng file; only the former can be played. */
  datatype Recording = PCAP(pcap: Pcap) | PCAPNG
}
