/** The parser as it runs: states that extract into `hdr` and move the cursor, until
    one accepts or rejects. */
module ParserMachine {
  import opened EtherTypes
  import opened BitFields
  import opened PacketParser

  class Machine {
    const packet: Bits
    var state: State
    var cursor: nat
    var hdr: Headers
    var meta: Metadata

    function Configuration(): Config
      reads this
    {
      Config(state, cursor, hdr, meta)
    }

    constructor (packet: Bits)
      ensures this.packet == packet && Configuration() == START
    {
      this.packet := packet;
      state, cursor, hdr, meta := ParseEthernet, 0, map[], NO_METADATA;
    }

    /** packet.extract of a fixed-size header. */
    method Fixed(k: Kind) returns (ok: bool)
      requires !IsVariable(k)
      modifies this
      ensures meta == old(meta)
      ensures var size := Width(Layout(k));
              && ok == (old(cursor) + size <= |packet|)
              && (!ok ==> Configuration() == old(Configuration()).(state := Reject(PacketTooShort)))
              && (ok ==> state == old(state) && cursor == old(cursor) + size
                         && hdr == old(hdr)[k := Extracted(k, packet[old(cursor)..old(cursor) + size])])
    {
      var size := Width(Layout(k));
      if cursor + size > |packet| {
        state := Reject(PacketTooShort);
        return false;
      }
      hdr := hdr[k := Fields(Unpack(Layout(k), packet[cursor..cursor + size]))];
      cursor := cursor + size;
      return true;
    }

    /** packet.extract of an options header of `size` bits. */
    method Variable(k: Kind, size: nat) returns (ok: bool)
      requires IsVariable(k)
      modifies this
      ensures meta == old(meta)
      ensures var failure := ExtractFailure(packet, old(cursor), k, size);
              && ok == !failure.Reject?
              && (!ok ==> Configuration() == old(Configuration()).(state := failure))
              && (ok ==> state == old(state) && cursor == old(cursor) + size <= |packet|
                         && hdr == old(hdr)[k := Extracted(k, packet[old(cursor)..old(cursor) + size])])
    {
      if size > MAX_OPTIONS {
        state := Reject(HeaderTooShort);
        return false;
      }
      if cursor + size > |packet| {
        state := Reject(PacketTooShort);
        return false;
      }
      hdr := hdr[k := Options(packet[cursor..cursor + size])];
      cursor := cursor + size;
      return true;
    }

    /** packet.lookahead of the two ports. */
    method Lookahead() returns (ok: bool, ports: seq<nat>)
      modifies this`state
      ensures ok == (cursor + 32 <= |packet|)
      ensures if ok then state == old(state) && ports == Unpack(L4_LOOKUP, packet[cursor..cursor + 32])
              else state == Reject(PacketTooShort)
    {
      ports := [];
      if cursor + 32 > |packet| {
        state := Reject(PacketTooShort);
        return false, ports;
      }
      return true, Unpack(L4_LOOKUP, packet[cursor..cursor + 32]);
    }

    method RunEthernet()
      requires state.ParseEthernet?
      modifies this
      ensures Configuration() == Step(packet, old(Configuration()))
    {
      hide Layout, Width, Extracted, Field, TcpOptionBits, Ipv4OptionBits, Unpack, Remaining;
      var ok := Fixed(ETHERNET);
      if ok {
        var t := EtherType(hdr, ETHERNET);
        if t == ETHERTYPE_IPV4 {
          state := ParseIpv4;
        } else if t == ETHERTYPE_FLOW_MONITORING {
          state := ParseFlowMonitoring;
        } else if t == ETHERTYPE_FLOW_EXPORT_REQUEST {
          state := ParseFlowExportRequest;
        } else if t == ETHERTYPE_FLOW_EXPORT_RESPONSE {
          state := ParseFlowExportResponse;
        } else {
          state := Accept;
        }
      }
    }

    method RunIpv4()
      requires state.ParseIpv4? || state.ParseIpv4Options? || state.ParseIpv4NoOptions?
      modifies this
      ensures Configuration() == Step(packet, old(Configuration()))
    {
      hide Layout, Width, Extracted, Field, TcpOptionBits, Ipv4OptionBits, Unpack, Remaining;
      match state
      case ParseIpv4 =>
        var ok := Fixed(IPV4);
        if ok {
          if Version(hdr) != 4 {
            state := Reject(IPv4IncorrectVersion);
          } else if Ihl(hdr) < 5 {
            state := Reject(IPv4HeaderTooShort);
          } else {
            state := if Ihl(hdr) == 5 then ParseIpv4NoOptions else ParseIpv4Options;
          }
        }
      case ParseIpv4Options =>
        var ok := Variable(IPV4_OPTIONS, Ipv4OptionBits(hdr));
        if ok {
          state := ParseIpv4NoOptions;
        }
      case ParseIpv4NoOptions =>
        var ok, ports := Lookahead();
        if ok {
          meta := meta.(l4Lookup := ports);
          var p := Protocol(hdr, IPV4);
          state := if p == PROTOCOL_ICMP then ParseIcmp
                   else if p == PROTOCOL_TCP then ParseTcp
                   else if p == PROTOCOL_UDP then ParseUdp
                   else Accept;
        }
    }

    method RunTransport()
      requires state.ParseIcmp? || state.ParseTcp? || state.ParseTcpOptions? || state.ParseUdp?
      modifies this
      ensures Configuration() == Step(packet, old(Configuration()))
    {
      hide Layout, Width, Extracted, Field, TcpOptionBits, Ipv4OptionBits, Unpack, Remaining;
      match state
      case ParseIcmp =>
        var ok := Fixed(ICMP);
        if ok {
          state := Accept;
        }
      case ParseTcp =>
        var ok := Fixed(TCP);
        if ok {
          state := ParseTcpOptions;
        }
      case ParseTcpOptions =>
        var ok := Variable(TCP_OPTIONS, TcpOptionBits(hdr, TCP));
        if ok {
          state := Accept;
        }
      case ParseUdp =>
        var ok := Fixed(UDP);
        if ok {
          state := if Field(hdr, UDP, 1) == UDP_PORT_VXLAN then ParseVxlan else ParsePm;
        }
    }

    method RunTunnel()
      requires state.ParseVxlan? || state.ParseInnerEthernet? || state.ParseInnerIpv4?
               || state.ParseInnerIpv4Options? || state.ParseInnerIpv4NoOptions?
      modifies this
      ensures Configuration() == Step(packet, old(Configuration()))
    {
      hide Layout, Width, Extracted, Field, TcpOptionBits, Ipv4OptionBits, Unpack, Remaining;
      match state
      case ParseVxlan =>
        var ok := Fixed(VXLAN);
        if ok {
          meta := meta.(tenantId := Field(hdr, VXLAN, 2));
          state := ParseInnerEthernet;
        }
      case ParseInnerEthernet =>
        var ok := Fixed(INNER_ETHERNET);
        if ok {
          state := if EtherType(hdr, INNER_ETHERNET) == ETHERTYPE_IPV4 then ParseInnerIpv4 else Accept;
        }
      case ParseInnerIpv4 =>
        var ok := Fixed(INNER_IPV4);
        if ok {
          state := ParseInnerIpv4Options;
        }
      case ParseInnerIpv4Options =>
        // The length comes from the outer IPv4 header here, too.
        var ok := Variable(IPV4_OPTIONS, Ipv4OptionBits(hdr));
        if ok {
          state := ParseInnerIpv4NoOptions;
        }
      case ParseInnerIpv4NoOptions =>
        var ok, ports := Lookahead();
        if ok {
          meta := meta.(innerL4Lookup := ports);
          var p := Protocol(hdr, INNER_IPV4);
          state := if p == PROTOCOL_ICMP then ParseInnerIcmp
                   else if p == PROTOCOL_TCP then ParseInnerTcp
                   else if p == PROTOCOL_UDP then ParseInnerUdp
                   else Accept;
        }
    }

    method RunInnerTransport()
      requires state.ParseInnerIcmp? || state.ParseInnerTcpOptions? || state.ParseInnerUdp?
      modifies this
      ensures Configuration() == Step(packet, old(Configuration()))
    {
      hide Layout, Width, Extracted, Field, TcpOptionBits, Ipv4OptionBits, Unpack, Remaining;
      match state
      case ParseInnerIcmp =>
        var ok := Fixed(INNER_ICMP);
        if ok {
          state := Accept;
        }
      case ParseInnerTcpOptions =>
        var ok := Variable(INNER_TCP_OPTIONS, TcpOptionBits(hdr, INNER_TCP));
        if ok {
          state := ParsePm;
        }
      case ParseInnerUdp =>
        var ok := Fixed(INNER_UDP);
        if ok {
          meta := meta.(srcPort := Field(hdr, INNER_UDP, 0));
          meta := meta.(dstPort := Field(hdr, INNER_UDP, 1));
          state := ParsePm;
        }
    }

    method RunInnerTcp()
      requires state.ParseInnerTcp?
      modifies this
      ensures Configuration() == Step(packet, old(Configuration()))
    {
      hide Layout, Width, Extracted, Field, TcpOptionBits, Ipv4OptionBits, Unpack, Remaining;
      var ok := Fixed(INNER_TCP);
      if ok {
        meta := meta.(srcPort := Field(hdr, INNER_TCP, 0));
        meta := meta.(dstPort := Field(hdr, INNER_TCP, 1));
        state := ParseInnerTcpOptions;
      }
    }

    method RunLast()
      requires state.ParsePm? || state.ParseFlowMonitoring? || state.ParseFlowExportRequest? || state.ParseFlowExportResponse?
      modifies this
      ensures Configuration() == Step(packet, old(Configuration()))
    {
      hide Layout, Width, Extracted, Field, TcpOptionBits, Ipv4OptionBits, Unpack, Remaining;
      var ok := Fixed(if state.ParsePm? then PM
                      else if state.ParseFlowMonitoring? then FLOW_MON
                      else if state.ParseFlowExportRequest? then FLOW_EXPORT_REQUEST
                      else FLOW_RECORD_DATA);
      if ok {
        state := Accept;
      }
    }

    /** From the start state to acceptance or rejection. */
    method Run()
      requires Configuration() == START
      modifies this
      ensures Configuration() == Parse(packet)
    {
      hide Layout, Step, Select, Target, Size;
      while !Final(state)
        invariant Finish(packet, Configuration()) == Parse(packet)
        decreases Remaining(state)
      {
        if state.ParseEthernet? {
          RunEthernet();
        } else if state.ParseIpv4? || state.ParseIpv4Options? || state.ParseIpv4NoOptions? {
          RunIpv4();
        } else if state.ParseIcmp? || state.ParseTcp? || state.ParseTcpOptions? || state.ParseUdp? {
          RunTransport();
        } else if state.ParsePm? || state.ParseFlowMonitoring? || state.ParseFlowExportRequest? || state.ParseFlowExportResponse? {
          RunLast();
        } else if state.ParseInnerTcp? {
          RunInnerTcp();
        } else if state.ParseInnerIcmp? || state.ParseInnerTcpOptions? || state.ParseInnerUdp? {
          RunInnerTransport();
        } else {
          RunTunnel();
        }
      }
    }
  }

  lemma Associates(a: Bits, b: Bits, c: Bits)
    ensures a + (b + c) == (a + b) + c
  {
  }

  /** The deparser: one emit after the other. */
  method Deparse(hdr: Headers) returns (packet: Bits)
    ensures packet == Emit(hdr)
  {
    packet := [];
    var k: nat := 0;
    while k < EMITTED
      invariant k <= EMITTED && packet + EmitFrom(hdr, k) == Emit(hdr)
    {
      hide Encode, EmitOne, Emit;
      assert EmitFrom(hdr, k) == EmitOne(hdr, k) + EmitFrom(hdr, k + 1);
      Associates(packet, EmitOne(hdr, k), EmitFrom(hdr, k + 1));
      packet := packet + EmitOne(hdr, k);
      k := k + 1;
    }
  }
}
