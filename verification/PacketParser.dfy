/** The BMv2 packet parser and deparser: a state machine that extracts headers from
    a bit string, and the fixed order in which valid headers are emitted. */
module PacketParser {
  import opened BitFields
  import opened EtherTypes

  /** The headers of headers_t, numbered in the order the deparser emits them.
      ipv4_options is the one header it never emits. */
  type Kind = k: nat | k <= 20 witness 0

  const ETHERNET: Kind := 0
  const IPV4: Kind := 1
  const ICMP: Kind := 2
  const TCP: Kind := 3
  const TCP_OPTIONS: Kind := 4
  const UDP: Kind := 5
  const VXLAN: Kind := 6
  const INNER_ETHERNET: Kind := 7
  const INNER_IPV4: Kind := 8
  const INNER_ICMP: Kind := 9
  const INNER_TCP: Kind := 10
  const INNER_TCP_OPTIONS: Kind := 11
  const INNER_UDP: Kind := 12
  const PM: Kind := 13
  const FLOW_MON: Kind := 14
  const TENANT: Kind := 15
  const FLOW_EXPORT_REQUEST: Kind := 16
  const FLOW_EXPORT_RESPONSE: Kind := 17
  const FLOW_RECORD_DATA: Kind := 18
  const ANALYZER: Kind := 19
  const IPV4_OPTIONS: Kind := 20
  const EMITTED: nat := 20

  datatype Header = Fields(values: seq<nat>) | Options(bits: Bits)

  type Headers = map<Kind, Header>

  datatype Error = PacketTooShort | HeaderTooShort | IPv4IncorrectVersion | IPv4HeaderTooShort

  datatype State =
    | ParseEthernet
    | ParseIpv4 | ParseIpv4Options | ParseIpv4NoOptions
    | ParseIcmp | ParseTcp | ParseTcpOptions | ParseUdp
    | ParseVxlan | ParseInnerEthernet
    | ParseInnerIpv4 | ParseInnerIpv4Options | ParseInnerIpv4NoOptions
    | ParseInnerIcmp | ParseInnerTcp | ParseInnerTcpOptions | ParseInnerUdp
    | ParsePm
    | ParseFlowMonitoring | ParseFlowExportRequest | ParseFlowExportResponse
    | Accept | Reject(error: Error)

  datatype Metadata = Metadata(l4Lookup: seq<nat>, innerL4Lookup: seq<nat>, tenantId: nat, srcPort: nat, dstPort: nat)

  const NO_METADATA := Metadata([], [], 0, 0, 0)

  const PROTOCOL_ICMP := 1
  const PROTOCOL_TCP := 6
  const PROTOCOL_UDP := 17
  const UDP_PORT_VXLAN := 4789
  const MAX_OPTIONS := 320
  const L4_LOOKUP: seq<nat> := [16, 16]

  /** Field widths of the fixed-size headers. */
  function Layout(k: Kind): seq<nat> {
    if k == ETHERNET || k == INNER_ETHERNET then [48, 48, 16]
    else if k == IPV4 || k == INNER_IPV4 then [4, 4, 8, 16] + [16, 3, 13] + [8, 8, 16] + [32, 32]
    else if k == ICMP || k == INNER_ICMP then [8, 8, 16]
    else if k == TCP || k == INNER_TCP then [16, 16] + [32, 32] + [4, 4, 8, 16] + [16, 16]
    else if k == UDP || k == INNER_UDP then [16, 16, 16, 16]
    else if k == VXLAN then [8, 24, 24, 8]
    else if k == PM then [32, 56]
    else if k == FLOW_MON || k == FLOW_EXPORT_REQUEST || k == FLOW_EXPORT_RESPONSE then [32, 8]
    else if k == TENANT then [24, 8]
    else if k == FLOW_RECORD_DATA then [8, 16, 8, 32, 32, 16, 16, 64, 64, 32, 32, 32, 32, 32, 64, 64, 64]
    else if k == ANALYZER then [16, 64, 16, 16]
    else []
  }

  predicate IsVariable(k: Kind) {
    k == TCP_OPTIONS || k == INNER_TCP_OPTIONS || k == IPV4_OPTIONS
  }

  // -------------------------------------------------------------------------
  // Deparser
  // -------------------------------------------------------------------------

  function Encode(k: Kind, h: Header): Bits {
    match h
    case Fields(values) => if |values| == |Layout(k)| then Pack(Layout(k), values) else []
    case Options(bits) => bits
  }

  /** packet.emit: nothing for a header that is not valid. */
  function EmitOne(hdr: Headers, k: Kind): Bits {
    if k in hdr then Encode(k, hdr[k]) else []
  }

  /** packet.emit of every header from a rank on. */
  function EmitFrom(hdr: Headers, rank: nat): Bits
    decreases EMITTED - rank
  {
    if rank >= EMITTED then [] else
    EmitOne(hdr, rank) + EmitFrom(hdr, rank + 1)
  }

  function Emit(hdr: Headers): Bits {
    EmitFrom(hdr, 0)
  }

  // -------------------------------------------------------------------------
  // Parser
  // -------------------------------------------------------------------------

  /** A field of a valid header. */
  function Field(hdr: Headers, k: Kind, i: nat): nat {
    if k in hdr && hdr[k].Fields? && i < |hdr[k].values| then hdr[k].values[i] else 0
  }

  function EtherType(hdr: Headers, k: Kind): nat { Field(hdr, k, 2) }
  function Version(hdr: Headers): nat { Field(hdr, IPV4, 0) }
  function Ihl(hdr: Headers): nat { Field(hdr, IPV4, 1) }
  function Protocol(hdr: Headers, k: Kind): nat { Field(hdr, k, 8) }
  function DataOffset(hdr: Headers, k: Kind): nat { Field(hdr, k, 4) }

  /** ((bit<32>) ihl - 5) * 32, for both option states from the outer header; the
      32-bit subtraction would wrap below five. */
  function Ipv4OptionBits(hdr: Headers): nat {
    var ihl := Ihl(hdr);
    if ihl >= 5 then (ihl - 5) * 32 else 0x1_0000_0000 - (5 - ihl) * 32
  }

  /** (bit<32>) (data_offset - 5) << 5: the subtraction is on 4 bits and wraps. */
  function TcpOptionBits(hdr: Headers, k: Kind): nat {
    var offset := DataOffset(hdr, k);
    (if offset >= 5 then offset - 5 else offset + 16 - 5) * 32
  }

  /** The header a state extracts. */
  function Target(s: State): Kind
    requires !s.Accept? && !s.Reject? && !s.ParseIpv4NoOptions? && !s.ParseInnerIpv4NoOptions?
  {
    match s
    case ParseEthernet => ETHERNET
    case ParseIpv4 => IPV4
    case ParseIpv4Options | ParseInnerIpv4Options => IPV4_OPTIONS
    case ParseIcmp => ICMP
    case ParseTcp => TCP
    case ParseTcpOptions => TCP_OPTIONS
    case ParseUdp => UDP
    case ParseVxlan => VXLAN
    case ParseInnerEthernet => INNER_ETHERNET
    case ParseInnerIpv4 => INNER_IPV4
    case ParseInnerIcmp => INNER_ICMP
    case ParseInnerTcp => INNER_TCP
    case ParseInnerTcpOptions => INNER_TCP_OPTIONS
    case ParseInnerUdp => INNER_UDP
    case ParsePm => PM
    case ParseFlowMonitoring => FLOW_MON
    case ParseFlowExportRequest => FLOW_EXPORT_REQUEST
    case ParseFlowExportResponse => FLOW_RECORD_DATA
  }

  /** Size in bits of what a state extracts. */
  function Size(s: State, hdr: Headers): (size: nat)
    requires !s.Accept? && !s.Reject? && !s.ParseIpv4NoOptions? && !s.ParseInnerIpv4NoOptions?
    ensures !IsVariable(Target(s)) ==> size == Width(Layout(Target(s)))
  {
    if s.ParseIpv4Options? || s.ParseInnerIpv4Options? then Ipv4OptionBits(hdr)
    else if s.ParseTcpOptions? then TcpOptionBits(hdr, TCP)
    else if s.ParseInnerTcpOptions? then TcpOptionBits(hdr, INNER_TCP)
    else Width(Layout(Target(s)))
  }

  predicate Looks(s: State) {
    s.ParseIpv4NoOptions? || s.ParseInnerIpv4NoOptions?
  }

  predicate Final(s: State) {
    s.Accept? || s.Reject?
  }

  /** How far from the end a state is at most. */
  function Remaining(s: State): nat {
    match s
    case ParseEthernet => 15
    case ParseIpv4 => 14
    case ParseIpv4Options => 13
    case ParseIpv4NoOptions => 12
    case ParseTcp | ParseUdp => 11
    case ParseVxlan => 10
    case ParseInnerEthernet => 9
    case ParseInnerIpv4 => 8
    case ParseInnerIpv4Options => 7
    case ParseInnerIpv4NoOptions => 6
    case ParseInnerTcp => 5
    case ParseInnerTcpOptions | ParseInnerUdp => 4
    case ParsePm | ParseIcmp | ParseTcpOptions | ParseInnerIcmp => 3
    case ParseFlowMonitoring | ParseFlowExportRequest | ParseFlowExportResponse => 3
    case Accept | Reject(_) => 0
  }

  /** The verify statements and the transition of a state, once it has extracted. */
  function Select(s: State, hdr: Headers): (r: State)
    requires !Final(s)
    ensures Remaining(r) < Remaining(s)
  {
    match s
    case ParseEthernet =>
      var t := EtherType(hdr, ETHERNET);
      if t == ETHERTYPE_IPV4 then ParseIpv4
      else if t == ETHERTYPE_FLOW_MONITORING then ParseFlowMonitoring
      else if t == ETHERTYPE_FLOW_EXPORT_REQUEST then ParseFlowExportRequest
      else if t == ETHERTYPE_FLOW_EXPORT_RESPONSE then ParseFlowExportResponse
      else Accept
    case ParseIpv4 =>
      if Version(hdr) != 4 then Reject(IPv4IncorrectVersion)
      else if Ihl(hdr) < 5 then Reject(IPv4HeaderTooShort)
      else if Ihl(hdr) == 5 then ParseIpv4NoOptions
      else ParseIpv4Options
    case ParseIpv4Options => ParseIpv4NoOptions
    case ParseIpv4NoOptions =>
      var p := Protocol(hdr, IPV4);
      if p == PROTOCOL_ICMP then ParseIcmp
      else if p == PROTOCOL_TCP then ParseTcp
      else if p == PROTOCOL_UDP then ParseUdp
      else Accept
    case ParseTcp => ParseTcpOptions
    case ParseUdp => if Field(hdr, UDP, 1) == UDP_PORT_VXLAN then ParseVxlan else ParsePm
    case ParseVxlan => ParseInnerEthernet
    case ParseInnerEthernet => if EtherType(hdr, INNER_ETHERNET) == ETHERTYPE_IPV4 then ParseInnerIpv4 else Accept
    case ParseInnerIpv4 => ParseInnerIpv4Options
    case ParseInnerIpv4Options => ParseInnerIpv4NoOptions
    case ParseInnerIpv4NoOptions =>
      var p := Protocol(hdr, INNER_IPV4);
      if p == PROTOCOL_ICMP then ParseInnerIcmp
      else if p == PROTOCOL_TCP then ParseInnerTcp
      else if p == PROTOCOL_UDP then ParseInnerUdp
      else Accept
    case ParseInnerTcp => ParseInnerTcpOptions
    case ParseInnerTcpOptions | ParseInnerUdp => ParsePm
    case _ => Accept
  }

  /** Parser state, cursor and everything written so far. */
  datatype Config = Config(state: State, cursor: nat, hdr: Headers, meta: Metadata)

  const START := Config(ParseEthernet, 0, map[], NO_METADATA)

  /** packet.lookahead<l4_lookup_t>(). */
  function Look(packet: Bits, c: Config): Config
    requires Looks(c.state)
  {
    if c.cursor + 32 > |packet| then c.(state := Reject(PacketTooShort)) else
    var ports := Unpack(L4_LOOKUP, packet[c.cursor..c.cursor + 32]);
    c.(state := Select(c.state, c.hdr),
       meta := if c.state.ParseIpv4NoOptions? then c.meta.(l4Lookup := ports) else c.meta.(innerL4Lookup := ports))
  }

  /** packet.extract: a variable part longer than its field fails first, then a
      packet without enough bits left. */
  function ExtractFailure(packet: Bits, cursor: nat, k: Kind, size: nat): State {
    if IsVariable(k) && size > MAX_OPTIONS then Reject(HeaderTooShort)
    else if cursor + size > |packet| then Reject(PacketTooShort)
    else Accept
  }

  /** The header an extraction stores. */
  function Extracted(k: Kind, bits: Bits): Header
    requires IsVariable(k) || |bits| == Width(Layout(k))
  {
    if IsVariable(k) then Options(bits) else Fields(Unpack(Layout(k), bits))
  }

  /** The assignments to metadata of an extracting state. */
  function Noted(s: State, hdr: Headers, meta: Metadata): Metadata {
    match s
    case ParseVxlan => meta.(tenantId := Field(hdr, VXLAN, 2))
    case ParseInnerTcp => meta.(srcPort := Field(hdr, INNER_TCP, 0), dstPort := Field(hdr, INNER_TCP, 1))
    case ParseInnerUdp => meta.(srcPort := Field(hdr, INNER_UDP, 0), dstPort := Field(hdr, INNER_UDP, 1))
    case _ => meta
  }

  function Extract(packet: Bits, c: Config): Config
    requires !Final(c.state) && !Looks(c.state)
  {
    var k, size := Target(c.state), Size(c.state, c.hdr);
    var failure := ExtractFailure(packet, c.cursor, k, size);
    if failure.Reject? then c.(state := failure) else
    var hdr := c.hdr[k := Extracted(k, packet[c.cursor..c.cursor + size])];
    Config(Select(c.state, hdr), c.cursor + size, hdr, Noted(c.state, hdr, c.meta))
  }

  function Step(packet: Bits, c: Config): (r: Config)
    requires !Final(c.state)
    ensures Remaining(r.state) < Remaining(c.state)
  {
    if Looks(c.state) then Look(packet, c) else Extract(packet, c)
  }

  function Finish(packet: Bits, c: Config): (r: Config)
    ensures Final(r.state)
    decreases Remaining(c.state)
  {
    if Final(c.state) then c else Finish(packet, Step(packet, c))
  }

  function Parse(packet: Bits): (r: Config)
    ensures Final(r.state)
  {
    Finish(packet, START)
  }
}
