/** What the parser notes in metadata: the ports, before it knows the transport
    protocol, and the tenant. */
module PacketPorts {
  import opened BitFields
  import opened PacketParser
  import opened PacketRoundTrip

  /** Both ports of a transport header. */
  function Ports(hdr: Headers, k: Kind): seq<nat> {
    [Field(hdr, k, 0), Field(hdr, k, 1)]
  }

  predicate IsTransport(k: Kind) {
    k == TCP || k == UDP || k == INNER_TCP || k == INNER_UDP
  }

  lemma FirstTwo(layout: seq<nat>, bits: Bits)
    requires |layout| >= 2 && layout[0] == 16 && layout[1] == 16 && |bits| == Width(layout)
    ensures |bits| >= 32
    ensures Unpack(layout, bits)[0] == FromBits(bits[..16])
    ensures Unpack(layout, bits)[1] == FromBits(bits[16..32])
  {
    assert bits[16..][..16] == bits[16..32];
    assert Unpack(layout, bits)[1] == Unpack(layout[1..], bits[16..])[0];
  }

  lemma StartsWithPorts(k: Kind)
    requires IsTransport(k)
    ensures |Layout(k)| >= 2 && Layout(k)[0] == 16 && Layout(k)[1] == 16
  {
  }

  /** A lookahead of two ports shows the ports of the transport header that follows. */
  lemma FirstFields(k: Kind, bits: Bits, hdr: Headers)
    requires IsTransport(k) && |bits| == Width(Layout(k))
    ensures |bits| >= 32 && Ports(hdr[k := Extracted(k, bits)], k) == Unpack(L4_LOOKUP, bits[..32])
  {
    StartsWithPorts(k);
    FirstTwo(Layout(k), bits);
    hide Layout, Unpack;
    TwoPorts(bits[..32]);
    assert bits[..32][..16] == bits[..16] && bits[..32][16..] == bits[16..32];
  }

  lemma TwoPorts(bits: Bits)
    requires |bits| == 32
    ensures |bits| == Width(L4_LOOKUP)
    ensures Unpack(L4_LOOKUP, bits) == [FromBits(bits[..16]), FromBits(bits[16..])]
  {
    assert L4_LOOKUP[1..] == [16] && [16][1..] == [];
    assert bits[16..][..16] == bits[16..];
  }

  /** The ports ahead have been looked up, and those behind agree with their header. */
  ghost predicate Noticed(packet: Bits, c: Config) {
    && c.cursor <= |packet|
    && (c.state.ParseTcp? || c.state.ParseUdp? ==>
          c.cursor + 32 <= |packet| && c.meta.l4Lookup == Unpack(L4_LOOKUP, packet[c.cursor..c.cursor + 32]))
    && (c.state.ParseInnerTcp? || c.state.ParseInnerUdp? ==>
          c.cursor + 32 <= |packet| && c.meta.innerL4Lookup == Unpack(L4_LOOKUP, packet[c.cursor..c.cursor + 32])
          && INNER_TCP !in c.hdr)
    && PortsAgree(c.hdr, c.meta)
  }

  ghost predicate PortsAgree(hdr: Headers, meta: Metadata) {
    && (VXLAN in hdr ==> meta.tenantId == Field(hdr, VXLAN, 2))
    && (TCP in hdr ==> meta.l4Lookup == Ports(hdr, TCP))
    && (UDP in hdr ==> meta.l4Lookup == Ports(hdr, UDP))
    && (INNER_TCP in hdr ==> meta.innerL4Lookup == Ports(hdr, INNER_TCP) == [meta.srcPort, meta.dstPort])
    && (INNER_UDP in hdr ==> meta.innerL4Lookup == Ports(hdr, INNER_UDP) == [meta.srcPort, meta.dstPort])
  }

  lemma LookNotices(packet: Bits, c: Config)
    requires Looks(c.state) && Below(c.hdr, NextRank(c.state)) && Noticed(packet, c) && !Look(packet, c).state.Reject?
    ensures Noticed(packet, Look(packet, c))
  {
    hide Unpack, Field;
  }

  lemma OtherPorts(hdr: Headers, k: Kind, h: Header)
    ensures forall other: Kind :: other != k ==> Ports(hdr[k := h], other) == Ports(hdr, other)
    ensures k != VXLAN ==> Field(hdr[k := h], VXLAN, 2) == Field(hdr, VXLAN, 2)
  {
  }

  /** What an extraction must have noticed for the ports to agree afterwards. */
  lemma PortsStayAgreed(s: State, hdr: Headers, h: Header, meta: Metadata)
    requires !Final(s) && !Looks(s) && PortsAgree(hdr, meta) && Below(hdr, NextRank(s))
    requires s.ParseTcp? || s.ParseUdp? ==> meta.l4Lookup == Ports(hdr[Target(s) := h], Target(s))
    requires s.ParseInnerTcp? || s.ParseInnerUdp? ==>
               INNER_TCP !in hdr && meta.innerL4Lookup == Ports(hdr[Target(s) := h], Target(s))
    ensures PortsAgree(hdr[Target(s) := h], Noted(s, hdr[Target(s) := h], meta))
  {
    OtherPorts(hdr, Target(s), h);
    hide Field;
  }

  lemma TransportNoticed(packet: Bits, cursor: nat, k: Kind, hdr: Headers)
    requires IsTransport(k) && cursor + Width(Layout(k)) <= |packet|
    ensures cursor + 32 <= |packet|
    ensures var bits := packet[cursor..cursor + Width(Layout(k))];
            Ports(hdr[k := Extracted(k, bits)], k) == Unpack(L4_LOOKUP, packet[cursor..cursor + 32])
  {
    var bits := packet[cursor..cursor + Width(Layout(k))];
    hide Layout, Unpack, Ports;
    FirstFields(k, bits, hdr);
    assert bits[..32] == packet[cursor..cursor + 32];
  }

  lemma ExtractStores(packet: Bits, c: Config)
    requires !Final(c.state) && !Looks(c.state) && !Extract(packet, c).state.Reject?
    ensures var k, size := Target(c.state), Size(c.state, c.hdr);
            && c.cursor + size <= |packet|
            && var hdr := c.hdr[k := Extracted(k, packet[c.cursor..c.cursor + size])];
            && Extract(packet, c) == Config(Select(c.state, hdr), c.cursor + size, hdr, Noted(c.state, hdr, c.meta))
  {
    hide Select, Noted, Layout, Unpack;
  }

  /** What was looked up is what is extracted now. */
  lemma LookupMatches(packet: Bits, c: Config)
    requires !Final(c.state) && !Looks(c.state) && Noticed(packet, c)
    requires c.cursor + Size(c.state, c.hdr) <= |packet|
    ensures var k := Target(c.state);
            var hdr := c.hdr[k := Extracted(k, packet[c.cursor..c.cursor + Size(c.state, c.hdr)])];
            && (c.state.ParseTcp? || c.state.ParseUdp? ==> c.meta.l4Lookup == Ports(hdr, k))
            && (c.state.ParseInnerTcp? || c.state.ParseInnerUdp? ==>
                  INNER_TCP !in c.hdr && c.meta.innerL4Lookup == Ports(hdr, k))
  {
    hide PortsAgree, Ports, Unpack, Layout, Width, Extracted;
    var k := Target(c.state);
    if IsTransport(k) {
      TransportNoticed(packet, c.cursor, k, c.hdr);
    }
  }

  lemma NoticedAfter(packet: Bits, c: Config)
    requires c.cursor <= |packet| && !c.state.ParseTcp? && !c.state.ParseUdp? && !c.state.ParseInnerTcp? && !c.state.ParseInnerUdp?
    ensures PortsAgree(c.hdr, c.meta) ==> Noticed(packet, c)
  {
  }

  lemma ExtractNotices(packet: Bits, c: Config)
    requires !Final(c.state) && !Looks(c.state) && Noticed(packet, c) && !Extract(packet, c).state.Reject?
    requires Below(c.hdr, NextRank(c.state))
    ensures Noticed(packet, Extract(packet, c))
  {
    hide Noticed, PortsAgree, Below, Noted, Ports, Unpack, Layout, Width, Extracted, Select, Extract, Size, Target;
    ExtractStores(packet, c);
    var k, size := Target(c.state), Size(c.state, c.hdr);
    var h := Extracted(k, packet[c.cursor..c.cursor + size]);
    NoticedAgrees(packet, c);
    AfterExtract(c.state, c.hdr[k := h]);
    LookupMatches(packet, c);
    NoticedAfter(packet, Extract(packet, c));
    PortsStayAgreed(c.state, c.hdr, h, c.meta);
  }

  /** Transport states are only entered from a lookahead. */
  lemma AfterExtract(s: State, hdr: Headers)
    requires !Final(s) && !Looks(s)
    ensures !Select(s, hdr).ParseTcp? && !Select(s, hdr).ParseUdp?
    ensures !Select(s, hdr).ParseInnerTcp? && !Select(s, hdr).ParseInnerUdp?
  {
  }

  lemma {:induction false} FinishNotices(packet: Bits, c: Config)
    requires Sound(packet, c) && Noticed(packet, c) && !c.state.Reject?
    ensures Finish(packet, c).state.Accept? ==> Noticed(packet, Finish(packet, c))
    decreases Remaining(c.state)
  {
    if !Final(c.state) {
      var next := Step(packet, c);
      StepSound(packet, c);
      assert Below(c.hdr, NextRank(c.state));
      hide Noticed, Sound;
      if !next.state.Reject? {
        if Looks(c.state) {
          LookNotices(packet, c);
        } else {
          ExtractNotices(packet, c);
        }
        FinishNotices(packet, next);
      }
    }
  }

  /** For every accepted packet the ports that identify its flow, noted by lookahead,
      are those of its TCP or UDP header, outer and inner; the inner ones are noted
      again when the header is extracted, and the tenant id is the VNI. */
  lemma NotedPortsAreThePorts(packet: Bits)
    requires Parse(packet).state.Accept?
    ensures PortsAgree(Parse(packet).hdr, Parse(packet).meta)
  {
    hide Sound, Noticed, PortsAgree, Finish;
    StartSound(packet);
    StartNoticed(packet);
    FinishNotices(packet, START);
    NoticedAgrees(packet, Parse(packet));
  }

  lemma StartNoticed(packet: Bits)
    ensures Noticed(packet, START)
  {
  }

  lemma NoticedAgrees(packet: Bits, c: Config)
    requires Noticed(packet, c)
    ensures PortsAgree(c.hdr, c.meta)
  {
  }
}
