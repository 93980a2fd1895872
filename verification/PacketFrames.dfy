/** From a parsed packet to the frame flow monitoring sees. */
module PacketFrames {
  import opened EtherTypes
  import opened Options
  import opened MovingAverage
  import opened FlowStatistics
  import opened FlowMonitor
  import opened BitFields
  import P = PacketParser
  import R = PacketRoundTrip
  import Q = PacketPorts
  import L = PacketPlaces

  // -------------------------------------------------------------------------
  // Which packets carry a pm header
  // -------------------------------------------------------------------------

  /** Plain UDP, and TCP or UDP inside VXLAN. */
  predicate CarriesPm(hdr: P.Headers) {
    (P.UDP in hdr && P.VXLAN !in hdr) || P.INNER_TCP in hdr || P.INNER_UDP in hdr
  }

  predicate IsInner(s: P.State) {
    s.ParseInnerEthernet? || s.ParseInnerIpv4? || s.ParseInnerIpv4Options? || s.ParseInnerIpv4NoOptions?
    || s.ParseInnerIcmp? || s.ParseInnerTcp? || s.ParseInnerTcpOptions? || s.ParseInnerUdp?
  }

  predicate IsMessage(s: P.State) {
    s.ParseFlowMonitoring? || s.ParseFlowExportRequest? || s.ParseFlowExportResponse?
  }

  /** What a state knows about the headers extracted so far. */
  ghost predicate Known(s: P.State, hdr: P.Headers) {
    && (IsInner(s) ==> P.VXLAN in hdr)
    && (IsMessage(s) ==> !CarriesPm(hdr) && P.PM !in hdr)
    && (s.ParsePm? ==> CarriesPm(hdr))
    && (s.Accept? ==> (P.PM in hdr <==> CarriesPm(hdr)))
    && (!s.ParseEthernet? && !s.Reject? ==>
          (P.EtherType(hdr, P.ETHERNET) == ETHERTYPE_IPV4 <==> P.IPV4 in hdr || s.ParseIpv4?))
  }

  lemma LookKeepsKnown(s: P.State, hdr: P.Headers)
    requires P.Looks(s) && R.Below(hdr, R.NextRank(s)) && Known(s, hdr)
    ensures Known(P.Select(s, hdr), hdr)
  {
  }

  lemma ExtractKeepsKnown(s: P.State, hdr: P.Headers, h: P.Header)
    requires !P.Final(s) && !P.Looks(s) && R.Below(hdr, R.NextRank(s)) && Known(s, hdr)
    requires s.ParseInnerTcpOptions? ==> P.INNER_TCP in hdr
    requires !P.Select(s, hdr[P.Target(s) := h]).Reject?
    ensures var grown := hdr[P.Target(s) := h]; Known(P.Select(s, grown), grown)
  {
  }

  lemma LookedState(packet: Bits, c: P.Config)
    requires P.Looks(c.state) && !P.Look(packet, c).state.Reject?
    ensures P.Look(packet, c).state == P.Select(c.state, c.hdr) && P.Look(packet, c).hdr == c.hdr
  {
    hide Unpack, P.Select;
  }

  lemma StepFacts(packet: Bits, c: P.Config)
    requires R.Structured(packet, c)
    ensures R.Below(c.hdr, R.NextRank(c.state)) && (c.state.ParseInnerTcpOptions? ==> P.INNER_TCP in c.hdr)
  {
    assert R.Located(c);
    hide R.Below, R.AllConform, R.TcpChecked, R.OuterChecked;
  }

  lemma StepKeepsKnown(packet: Bits, c: P.Config)
    requires !P.Final(c.state) && R.Structured(packet, c) && Known(c.state, c.hdr) && !P.Step(packet, c).state.Reject?
    ensures Known(P.Step(packet, c).state, P.Step(packet, c).hdr)
  {
    StepFacts(packet, c);
    hide R.Structured, Known, R.Below, R.NextRank, P.Select, P.Look, P.Size, P.Extracted;
    if P.Looks(c.state) {
      LookedState(packet, c);
      LookKeepsKnown(c.state, c.hdr);
    } else {
      R.StepExtracts(packet, c);
      hide P.Step;
      ExtractKeepsKnown(c.state, c.hdr, P.Extracted(P.Target(c.state), packet[c.cursor..c.cursor + P.Size(c.state, c.hdr)]));
    }
  }

  lemma {:induction false} FinishKeepsKnown(packet: Bits, c: P.Config)
    requires R.Sound(packet, c) && Known(c.state, c.hdr) && !c.state.Reject?
    ensures var r := P.Finish(packet, c); r.state.Accept? ==> Known(r.state, r.hdr) && R.AllConform(r.hdr)
    decreases P.Remaining(c.state)
  {
    assert R.Structured(packet, c) && R.AllConform(c.hdr);
    hide Known, R.Structured, R.AllConform;
    if !P.Final(c.state) {
      var next := P.Step(packet, c);
      R.StepSound(packet, c);
      hide R.Sound, P.Step;
      if !next.state.Reject? {
        StepKeepsKnown(packet, c);
        FinishKeepsKnown(packet, next);
      }
    }
  }

  lemma AcceptedIsKnown(packet: Bits)
    requires P.Parse(packet).state.Accept?
    ensures Known(P.Accept, P.Parse(packet).hdr) && R.AllConform(P.Parse(packet).hdr)
  {
    assert Known(P.START.state, P.START.hdr);
    hide Known, R.AllConform, P.Finish, R.Sound;
    R.StartSound(packet);
    FinishKeepsKnown(packet, P.START);
  }

  /** An accepted packet has a pm header exactly if it is plain UDP, or TCP or UDP inside
      VXLAN; plain TCP and ICMP packets never have one. */
  lemma PmIsCarriedIff(packet: Bits)
    requires P.Parse(packet).state.Accept?
    ensures var hdr := P.Parse(packet).hdr;
            P.PM in hdr <==> CarriesPm(hdr)
  {
    hide P.Parse, R.AllConform;
    AcceptedIsKnown(packet);
  }

  // -------------------------------------------------------------------------
  // The frame
  // -------------------------------------------------------------------------

  /** A field of at most 32 bits. */
  function Word(n: nat): (w: Bit32)
    ensures n < VALUES ==> w == n
  {
    n % VALUES
  }

  /** A field of at most 56 bits. */
  function Stamp(n: nat): (t: Bit56)
    ensures n < TIMESTAMPS ==> t == n
  {
    n % TIMESTAMPS
  }

  function At(ports: seq<nat>, i: nat): nat {
    if i < |ports| then ports[i] else 0
  }

  /** The 5-tuple of an IPv4 header with the ports noted behind it. */
  function TupleOf(hdr: P.Headers, ipv4: P.Kind, ports: seq<nat>): FlowTuple {
    FlowTuple(Word(P.Field(hdr, ipv4, 10)), Word(P.Field(hdr, ipv4, 11)), At(ports, 0), At(ports, 1), P.Protocol(hdr, ipv4))
  }

  /** What the ingress reads of a parsed packet and its standard metadata. */
  function FrameOf(c: P.Config, ingressPort: nat, normal: bool): Frame {
    var hdr := c.hdr;
    Frame(
      P.EtherType(hdr, P.ETHERNET), ingressPort, normal,
      P.Field(hdr, P.FLOW_MON, 1), P.Field(hdr, P.FLOW_MON, 0),
      P.IPV4 in hdr, P.Field(hdr, P.IPV4, 7),
      TupleOf(hdr, P.IPV4, c.meta.l4Lookup),
      if P.VXLAN in hdr then Some(TupleOf(hdr, P.INNER_IPV4, c.meta.innerL4Lookup)) else None,
      Sample(Word(P.Field(hdr, P.PM, 0)), Stamp(P.Field(hdr, P.PM, 1))))
  }

  lemma PmFits(hdr: P.Headers)
    requires R.AllConform(hdr) && P.PM in hdr
    ensures P.Field(hdr, P.PM, 0) < VALUES && P.Field(hdr, P.PM, 1) < TIMESTAMPS
  {
    WidthsAreExact();
    assert R.Conforms(P.PM, hdr[P.PM]);
    assert P.Layout(P.PM) == [32, 56];
    assert hdr[P.PM].values[0] < Pow2(32) && hdr[P.PM].values[1] < Pow2(56);
  }

  /** The ports that identify the flow are those of the innermost TCP or UDP header. */
  ghost predicate ShowsPorts(hdr: P.Headers, f: Frame) {
    var ports := [Key(f).srcPort, Key(f).dstPort];
    && (f.vxlan.Some? <==> P.VXLAN in hdr)
    && (P.TCP in hdr && P.VXLAN !in hdr ==> ports == Q.Ports(hdr, P.TCP))
    && (P.UDP in hdr && P.VXLAN !in hdr ==> ports == Q.Ports(hdr, P.UDP))
    && (P.INNER_TCP in hdr && P.VXLAN in hdr ==> ports == Q.Ports(hdr, P.INNER_TCP))
    && (P.INNER_UDP in hdr && P.VXLAN in hdr ==> ports == Q.Ports(hdr, P.INNER_UDP))
  }

  /** Length and timestamp are those of the pm header, present exactly for the packets
      that carry one. */
  ghost predicate ShowsPm(hdr: P.Headers, f: Frame) {
    && (P.PM in hdr <==> CarriesPm(hdr))
    && (CarriesPm(hdr) ==> f.pm.length == P.Field(hdr, P.PM, 0) && f.pm.timestamp == P.Field(hdr, P.PM, 1))
  }

  lemma PortsAreShown(c: P.Config, ingressPort: nat, normal: bool)
    requires Q.PortsAgree(c.hdr, c.meta)
    ensures ShowsPorts(c.hdr, FrameOf(c, ingressPort, normal))
  {
    hide P.Field, Word, Stamp;
  }

  lemma PmIsShown(c: P.Config, ingressPort: nat, normal: bool)
    requires Known(P.Accept, c.hdr) && R.AllConform(c.hdr)
    ensures ShowsPm(c.hdr, FrameOf(c, ingressPort, normal))
    ensures FrameOf(c, ingressPort, normal).ipv4Valid <==> FrameOf(c, ingressPort, normal).etherType == ETHERTYPE_IPV4
  {
    if P.PM in c.hdr {
      PmFits(c.hdr);
    }
    hide P.Field, R.AllConform, TupleOf, Word, Stamp;
  }

  /** The frame of an accepted packet is past the IPv4 test exactly with the IPv4 ether
      type, and shows the packet's ports and its pm header. */
  lemma FrameShowsPacket(packet: Bits, ingressPort: nat, normal: bool)
    requires P.Parse(packet).state.Accept?
    ensures var c := P.Parse(packet);
            var f := FrameOf(c, ingressPort, normal);
            && (f.ipv4Valid <==> f.etherType == ETHERTYPE_IPV4)
            && ShowsPorts(c.hdr, f) && ShowsPm(c.hdr, f)
  {
    hide *;
    AcceptedIsKnown(packet);
    Q.NotedPortsAreThePorts(packet);
    PortsAreShown(P.Parse(packet), ingressPort, normal);
    PmIsShown(P.Parse(packet), ingressPort, normal);
  }

  // -------------------------------------------------------------------------
  // The frame in bits of the packet
  // -------------------------------------------------------------------------

  lemma WordFits(packet: Bits, at: nat)
    ensures L.BitsAt(packet, at, 32) < VALUES && Word(L.BitsAt(packet, at, 32)) == L.BitsAt(packet, at, 32)
  {
    WidthsAreExact();
  }

  /** The tuple's addresses and protocol stand in the IPv4 header that starts at a bit. */
  ghost predicate ShowsAddresses(packet: Bits, t: FlowTuple, at: nat) {
    && t.src == L.BitsAt(packet, at + 96, 32) && t.dst == L.BitsAt(packet, at + 128, 32)
    && t.protocol == L.BitsAt(packet, at + 72, 8)
  }

  lemma TupleIsRead(packet: Bits, hdr: P.Headers, k: P.Kind, at: nat, ports: seq<nat>)
    requires L.ShowsIpv4(packet, hdr, k, at)
    ensures ShowsAddresses(packet, TupleOf(hdr, k, ports), at)
  {
    hide L.BitsAt, P.Field, P.Protocol, Word;
    WordFits(packet, at + 96);
    WordFits(packet, at + 128);
  }

  /** What monitoring reads of an accepted packet besides ports and length: ether type, TTL,
      addresses and protocol of both IPv4 headers, and the fields of a control message. */
  lemma FrameIsRead(packet: Bits, ingressPort: nat, normal: bool)
    requires P.Parse(packet).state.Accept?
    ensures var hdr, gap := P.Parse(packet).hdr, R.Gap(P.Parse(packet).hdr);
            var f := FrameOf(P.Parse(packet), ingressPort, normal);
            && gap >= 0 && f.ingressPort == ingressPort && f.normal == normal
            && (P.ETHERNET in hdr ==> f.etherType == L.BitsAt(packet, 96, 16))
            && (f.ipv4Valid ==> f.ttl == L.BitsAt(packet, 176, 8) && ShowsAddresses(packet, f.outer, 112))
            && (f.vxlan.Some? && P.INNER_IPV4 in hdr ==> ShowsAddresses(packet, f.vxlan.value, 512 + gap))
            && (P.FLOW_MON in hdr ==> f.flowHash == L.BitsAt(packet, 112, 32) && f.reason == L.BitsAt(packet, 144, 8))
            && (P.PM in hdr ==>
                  && f.pm.length == L.BitsAt(packet, L.PmPlace(hdr), 32)
                  && f.pm.timestamp == L.BitsAt(packet, L.PmPlace(hdr) + 32, 56))
  {
    hide P.Parse, R.Gap, L.BitsAt, L.PmPlace, L.ShowsIpv4, P.EtherType, P.Field, Word, Stamp, R.AllConform, ShowsAddresses, ShowsPorts, Known, CarriesPm;
    var c := P.Parse(packet);
    L.AcceptedBits(packet);
    if P.IPV4 in c.hdr {
      TupleIsRead(packet, c.hdr, P.IPV4, 112, c.meta.l4Lookup);
    }
    if P.INNER_IPV4 in c.hdr {
      TupleIsRead(packet, c.hdr, P.INNER_IPV4, 512 + R.Gap(c.hdr), c.meta.innerL4Lookup);
    }
    if P.PM in c.hdr {
      FrameShowsPacket(packet, ingressPort, normal);
      L.AcceptedPm(packet);
    }
  }
}
