/** Where the headers of a packet are read, inside a VXLAN tunnel too, and where they stand. */
module PacketPlaces {
  import opened MovingAverage
  import opened BitFields
  import opened PacketParser
  import opened PacketRoundTrip
  import opened PacketStacks
  import opened PacketPorts
  import opened PacketShapes

  predicate IsInnerTransport(k: Kind) {
    k == INNER_ICMP || k == INNER_TCP || k == INNER_UDP
  }

  /** The header is made of the packet's bits from `at` on. */
  ghost predicate ReadAt(packet: Bits, hdr: Headers, k: Kind, at: int) {
    && k in hdr && !IsVariable(k) && 0 <= at && at + Width(Layout(k)) <= |packet|
    && hdr[k] == Extracted(k, packet[at..at + Width(Layout(k))])
  }

  /** Headers of fixed size, besides the pm header. */
  predicate HasPlace(k: Kind) {
    k <= TCP || k == UDP || k == VXLAN || k == INNER_ETHERNET || k == INNER_IPV4 || IsInnerTransport(k)
    || k == FLOW_MON || k == FLOW_EXPORT_REQUEST || k == FLOW_RECORD_DATA
  }

  /** The bit from which a header is read, for a given length of outer options. */
  function PlaceOf(k: Kind, gap: nat): nat {
    if k == ETHERNET then 0
    else if k == ICMP || k == TCP || k == UDP then 272 + gap
    else if k == VXLAN then 336 + gap
    else if k == INNER_ETHERNET then 400 + gap
    else if k == INNER_IPV4 then 512 + gap
    else if IsInnerTransport(k) then 672 + 2 * gap
    else 112
  }

  ghost predicate IsPlaced(packet: Bits, hdr: Headers, k: Kind) {
    && ReadAt(packet, hdr, k, PlaceOf(k, OptionGap(hdr)))
    && (IsInnerTransport(k) ==> IPV4 in hdr && INNER_IPV4 in hdr)
  }

  ghost predicate Placed(packet: Bits, hdr: Headers) {
    forall k :: k in hdr && HasPlace(k) ==> IsPlaced(packet, hdr, k)
  }

  lemma ReadHere(packet: Bits, c: Config, k: Kind, bits: Bits, c': Config)
    requires Stores(packet, c, k, bits, c') && !IsVariable(k)
    ensures ReadAt(packet, c'.hdr, k, c.cursor)
  {
    hide Layout, Width, Extracted, Unpack;
  }

  lemma StaysPlaced(packet: Bits, hdr: Headers, k: Kind, other: Kind, h: Header)
    requires other != k && other != IPV4 && IsPlaced(packet, hdr, k)
    ensures IsPlaced(packet, hdr[other := h], k)
  {
    OuterFieldsStay(hdr, other, h);
    hide OptionGap, Extracted, Layout;
  }

  lemma StorePlaces(packet: Bits, hdr: Headers, k: Kind, h: Header)
    requires Placed(packet, hdr) && k != IPV4 && (HasPlace(k) ==> IsPlaced(packet, hdr[k := h], k))
    ensures Placed(packet, hdr[k := h])
  {
    hide IsPlaced, HasPlace;
    forall j | j in hdr[k := h] && HasPlace(j)
      ensures IsPlaced(packet, hdr[k := h], j)
    {
      if j != k {
        StaysPlaced(packet, hdr, j, k, h);
      }
    }
  }

  /** Only Ethernet stands in front of the outer IPv4 header. */
  lemma Ipv4Places(packet: Bits, hdr: Headers, h: Header)
    requires Placed(packet, hdr) && Below(hdr, IPV4) && ReadAt(packet, hdr[IPV4 := h], IPV4, 112)
    ensures Placed(packet, hdr[IPV4 := h])
  {
    var grown := hdr[IPV4 := h];
    forall j | j in grown && HasPlace(j)
      ensures IsPlaced(packet, grown, j)
    {
      if j == ETHERNET {
        assert IsPlaced(packet, hdr, j);
      }
    }
  }

  /** Where a state that extracts a header finds the cursor. */
  lemma CursorIsPlace(c: Config, k: Kind)
    requires !Final(c.state) && !Looks(c.state) && k == Target(c.state) && Located(c) && Below(c.hdr, NextRank(c.state))
    ensures k == IPV4 ==> Below(c.hdr, IPV4)
    ensures HasPlace(k) ==> c.cursor == PlaceOf(k, OptionGap(c.hdr)) && !IsVariable(k)
    ensures IsInnerTransport(k) ==> IPV4 in c.hdr && INNER_IPV4 in c.hdr
  {
    hide OptionGap;
  }

  lemma ExtractPlaces(packet: Bits, c: Config, k: Kind, bits: Bits, c': Config)
    requires Extracts(packet, c, k, bits, c') && Located(c) && Below(c.hdr, NextRank(c.state)) && Placed(packet, c.hdr)
    ensures Placed(packet, c'.hdr)
  {
    CursorIsPlace(c, k);
    hide Placed, Located, Below, NextRank, Layout, Extracted, OptionGap, Size, Select, ReadAt;
    if HasPlace(k) {
      ReadHere(packet, c, k, bits, c');
    }
    if k == IPV4 {
      Ipv4Places(packet, c.hdr, Extracted(k, bits));
    } else {
      OuterFieldsStay(c.hdr, k, Extracted(k, bits));
      StorePlaces(packet, c.hdr, k, Extracted(k, bits));
    }
  }

  lemma {:induction false} FinishPlaces(packet: Bits, c: Config)
    requires Sound(packet, c) && Placed(packet, c.hdr)
    ensures Finish(packet, c).state.Accept? ==> Placed(packet, Finish(packet, c).hdr)
    decreases Remaining(c.state)
  {
    if !Final(c.state) {
      var next := Step(packet, c);
      StepSound(packet, c);
      assert Structured(packet, c) && Located(c) && Below(c.hdr, NextRank(c.state));
      hide Placed, Sound, Structured, Located, Below, NextRank, Extract;
      if !next.state.Reject? {
        if Looks(c.state) {
          assert next.hdr == c.hdr;
        } else {
          StepExtracts(packet, c);
          hide Step;
          ExtractPlaces(packet, c, Target(c.state), packet[c.cursor..c.cursor + Size(c.state, c.hdr)], next);
        }
        FinishPlaces(packet, next);
      }
    }
  }

  /** The bit behind the inner IPv4 header, counting its own length. */
  ghost function InnerPayload(hdr: Headers): int {
    512 + Gap(hdr) + 32 * Field(hdr, INNER_IPV4, 1)
  }

  lemma AcceptedGap(packet: Bits)
    requires Parse(packet).state.Accept?
    ensures var hdr := Parse(packet).hdr; OptionGap(hdr) == Gap(hdr) && Gap(hdr) >= 0
  {
    hide Finish, Sound, Structured;
    StartSound(packet);
    FinishSound(packet, START);
    GapOf(packet, Parse(packet));
  }

  lemma GapOf(packet: Bits, c: Config)
    requires c.state.Accept? && Sound(packet, c)
    ensures OptionGap(c.hdr) == Gap(c.hdr) && Gap(c.hdr) >= 0
  {
    AcceptedShape(packet, c);
  }

  lemma AcceptedIsPlaced(packet: Bits)
    requires Parse(packet).state.Accept?
    ensures Placed(packet, Parse(packet).hdr)
  {
    assert Placed(packet, START.hdr);
    hide Finish, Sound, Placed;
    StartSound(packet);
    FinishPlaces(packet, START);
  }

  lemma LengthsMeetIff(hdr: Headers)
    requires IPV4 in hdr
    ensures 672 + 2 * Gap(hdr) == InnerPayload(hdr) <==> Field(hdr, INNER_IPV4, 1) == Ihl(hdr)
  {
    hide Field;
  }

  /** In every accepted packet the inner IPv4 header is read behind the tunnel headers, and
      the transport header inside it at twice the outer options behind them. That is where
      the inner header says its payload starts exactly if it is as long as the outer one. */
  lemma InnerHeaderPlaceIff(packet: Bits, k: Kind)
    requires Parse(packet).state.Accept? && k in Parse(packet).hdr && IsInnerTransport(k)
    ensures var hdr := Parse(packet).hdr;
            && IPV4 in hdr && ReadAt(packet, hdr, INNER_IPV4, 512 + Gap(hdr))
            && ReadAt(packet, hdr, k, 672 + 2 * Gap(hdr))
            && (672 + 2 * Gap(hdr) == InnerPayload(hdr) <==> Field(hdr, INNER_IPV4, 1) == Ihl(hdr))
  {
    hide Parse, ReadAt, OptionGap, Gap, InnerPayload, Ihl, Field;
    AcceptedIsPlaced(packet);
    AcceptedGap(packet);
    assert IsPlaced(packet, Parse(packet).hdr, k) && IsPlaced(packet, Parse(packet).hdr, INNER_IPV4);
    LengthsMeetIff(Parse(packet).hdr);
  }

  // -------------------------------------------------------------------------
  // The bits a flow is identified by
  // -------------------------------------------------------------------------

  /** A field of `width` bits from bit `at` on. */
  ghost function BitsAt(packet: Bits, at: nat, width: nat): nat {
    if at + width <= |packet| then FromBits(packet[at..at + width]) else 0
  }

  lemma FieldIsRead(packet: Bits, hdr: Headers, k: Kind, at: nat, i: nat)
    requires ReadAt(packet, hdr, k, at) && i < |Layout(k)|
    ensures Field(hdr, k, i) == BitsAt(packet, at + Width(Layout(k)[..i]), Layout(k)[i])
  {
    hide Layout, FromBits;
    var layout := Layout(k);
    var bits := packet[at..at + Width(layout)];
    FieldBits(layout, bits, i);
    var from := Width(layout[..i]);
    assert bits[from..from + layout[i]] == packet[at + from..at + from + layout[i]];
  }

  lemma Ipv4Offsets(k: Kind)
    requires k == IPV4 || k == INNER_IPV4
    ensures |Layout(k)| == 12
    ensures Width(Layout(k)[..0]) == 0 && Width(Layout(k)[..1]) == 4
    ensures Width(Layout(k)[..8]) == 72 && Width(Layout(k)[..10]) == 96 && Width(Layout(k)[..11]) == 128
    ensures Layout(k)[0] == Layout(k)[1] == 4 && Layout(k)[8] == 8 && Layout(k)[10] == Layout(k)[11] == 32
  {
    var a, b := [4, 4, 8, 16], [16, 3, 13];
    assert Layout(k)[..1] == [4];
    assert Layout(k)[..8] == a + b + [8] + [];
    assert Layout(k)[..10] == a + b + [8, 8, 16] + [];
    assert Layout(k)[..11] == a + b + [8, 8, 16] + [32];
    FourParts(a, b, [8], []);
    FourParts(a, b, [8, 8, 16], []);
    FourParts(a, b, [8, 8, 16], [32]);
  }

  lemma TtlOffset()
    ensures |Layout(IPV4)| == 12 && Width(Layout(IPV4)[..7]) == 64 && Layout(IPV4)[7] == 8
  {
    var a, b := [4, 4, 8, 16], [16, 3, 13];
    assert Layout(IPV4)[..7] == a + b;
    WidthAppends(a, b);
  }

  /** Protocol and addresses of an IPv4 header that starts at a bit. */
  ghost predicate ShowsIpv4(packet: Bits, hdr: Headers, k: Kind, at: nat) {
    && Field(hdr, k, 0) == BitsAt(packet, at, 4) && Field(hdr, k, 1) == BitsAt(packet, at + 4, 4)
    && Protocol(hdr, k) == BitsAt(packet, at + 72, 8)
    && Field(hdr, k, 10) == BitsAt(packet, at + 96, 32) && Field(hdr, k, 11) == BitsAt(packet, at + 128, 32)
  }

  lemma Ipv4IsRead(packet: Bits, hdr: Headers, k: Kind, at: nat)
    requires (k == IPV4 || k == INNER_IPV4) && ReadAt(packet, hdr, k, at)
    ensures ShowsIpv4(packet, hdr, k, at)
  {
    Ipv4Offsets(k);
    hide Layout, Width, ReadAt, Field, BitsAt;
    FieldIsRead(packet, hdr, k, at, 0);
    FieldIsRead(packet, hdr, k, at, 1);
    FieldIsRead(packet, hdr, k, at, 8);
    FieldIsRead(packet, hdr, k, at, 10);
    FieldIsRead(packet, hdr, k, at, 11);
  }

  lemma PortsAreRead(packet: Bits, hdr: Headers, k: Kind, at: nat)
    requires IsTransport(k) && ReadAt(packet, hdr, k, at)
    ensures Ports(hdr, k) == [BitsAt(packet, at, 16), BitsAt(packet, at + 16, 16)]
  {
    StartsWithPorts(k);
    assert Width(Layout(k)[..0]) == 0;
    assert Layout(k)[..1] == [16] && Width([16]) == 16;
    hide Layout, Width, ReadAt, Field, BitsAt;
    FieldIsRead(packet, hdr, k, at, 0);
    FieldIsRead(packet, hdr, k, at, 1);
  }

  lemma VniIsRead(packet: Bits, hdr: Headers, at: nat)
    requires ReadAt(packet, hdr, VXLAN, at)
    ensures Field(hdr, VXLAN, 2) == BitsAt(packet, at + 32, 24)
  {
    assert Layout(VXLAN)[..2] == [8, 24] && Width([8, 24]) == 32 && Layout(VXLAN)[2] == 24;
    hide Layout, Width, ReadAt, Field, BitsAt;
    FieldIsRead(packet, hdr, VXLAN, at, 2);
  }

  lemma EtherTypeIsRead(packet: Bits, hdr: Headers, k: Kind, at: nat)
    requires (k == ETHERNET || k == INNER_ETHERNET) && ReadAt(packet, hdr, k, at)
    ensures EtherType(hdr, k) == BitsAt(packet, at + 96, 16)
  {
    assert Layout(k)[..2] == [48, 48] && Width([48, 48]) == 96 && Layout(k)[2] == 16;
    hide Layout, Width, ReadAt, Field, BitsAt;
    FieldIsRead(packet, hdr, k, at, 2);
  }

  lemma FlowMonIsRead(packet: Bits, hdr: Headers)
    requires ReadAt(packet, hdr, FLOW_MON, 112)
    ensures Field(hdr, FLOW_MON, 0) == BitsAt(packet, 112, 32) && Field(hdr, FLOW_MON, 1) == BitsAt(packet, 144, 8)
  {
    assert Layout(FLOW_MON)[..0] == [] && Layout(FLOW_MON)[..1] == [32] && Width([32]) == 32;
    hide Layout, Width, ReadAt, Field, BitsAt;
    FieldIsRead(packet, hdr, FLOW_MON, 112, 0);
    FieldIsRead(packet, hdr, FLOW_MON, 112, 1);
  }

  lemma PmIsRead(packet: Bits, hdr: Headers, at: nat)
    requires ReadAt(packet, hdr, PM, at)
    ensures Field(hdr, PM, 0) == BitsAt(packet, at, 32) && Field(hdr, PM, 1) == BitsAt(packet, at + 32, 56)
  {
    assert Layout(PM)[..0] == [] && Layout(PM)[..1] == [32] && Width([32]) == 32;
    hide Layout, Width, ReadAt, Field, BitsAt;
    FieldIsRead(packet, hdr, PM, at, 0);
    FieldIsRead(packet, hdr, PM, at, 1);
  }

  lemma TtlIsRead(packet: Bits, hdr: Headers)
    requires ReadAt(packet, hdr, IPV4, 112)
    ensures Field(hdr, IPV4, 7) == BitsAt(packet, 176, 8)
  {
    TtlOffset();
    hide Layout, Width, ReadAt, Field, BitsAt;
    FieldIsRead(packet, hdr, IPV4, 112, 7);
  }

  lemma PlaceAt(packet: Bits, hdr: Headers, k: Kind)
    requires Placed(packet, hdr) && k in hdr && HasPlace(k)
    ensures ReadAt(packet, hdr, k, PlaceOf(k, OptionGap(hdr)))
  {
    hide ReadAt, PlaceOf, OptionGap;
    assert IsPlaced(packet, hdr, k);
  }

  // The pm header stands behind the last transport header.

  /** Inside a tunnel behind UDP, or behind TCP and its options; else behind the outer UDP. */
  ghost function PmPlace(hdr: Headers): nat {
    var gap := OptionGap(hdr);
    if INNER_UDP in hdr then 736 + 2 * gap
    else if INNER_TCP in hdr then 832 + 2 * gap + TcpOptionBits(hdr, INNER_TCP)
    else 336 + gap
  }

  lemma SameOffset(hdr: Headers, k: Kind, h: Header)
    requires k != INNER_TCP
    ensures TcpOptionBits(hdr[k := h], INNER_TCP) == TcpOptionBits(hdr, INNER_TCP)
  {
  }

  /** Three states lead to the pm header, each with its cursor. */
  lemma PmIsNext(packet: Bits, c: Config, k: Kind, bits: Bits, c': Config)
    requires Extracts(packet, c, k, bits, c') && Located(c) && Below(c.hdr, NextRank(c.state)) && c'.state.ParsePm?
    ensures c'.cursor == PmPlace(c'.hdr)
  {
    assert c.state.ParseUdp? || c.state.ParseInnerUdp? || c.state.ParseInnerTcpOptions?;
    OuterFieldsStay(c.hdr, k, Extracted(k, bits));
    SameOffset(c.hdr, k, Extracted(k, bits));
    HeaderWidths(UDP);
    assert Layout(INNER_UDP) == Layout(UDP);
    hide Layout, Unpack, Extracted, OptionGap, TcpOptionBits, Width;
  }

  lemma LookNotPm(s: State, hdr: Headers)
    requires Looks(s)
    ensures !Select(s, hdr).ParsePm?
  {
  }

  lemma PmTarget(s: State)
    requires !Final(s) && !Looks(s) && !s.ParsePm?
    ensures Target(s) != PM
  {
  }

  lemma StepToPm(packet: Bits, c: Config)
    requires Structured(packet, c) && !Final(c.state) && !c.state.ParsePm? && PM !in c.hdr && !Step(packet, c).state.Reject?
    ensures PM !in Step(packet, c).hdr && (Step(packet, c).state.ParsePm? ==> Step(packet, c).cursor == PmPlace(Step(packet, c).hdr))
  {
    assert Located(c) && Below(c.hdr, NextRank(c.state));
    hide Structured, Located, Below, PmPlace;
    if Looks(c.state) {
      LookNotPm(c.state, c.hdr);
      hide Unpack, Select, NextRank;
    } else {
      StepExtracts(packet, c);
      PmTarget(c.state);
      hide Step, Select, NextRank, Size, Target, Extracted, Layout;
      if Step(packet, c).state.ParsePm? {
        PmIsNext(packet, c, Target(c.state), packet[c.cursor..c.cursor + Size(c.state, c.hdr)], Step(packet, c));
      }
    }
  }

  lemma PmIsLast(hdr: Headers)
    ensures Select(ParsePm, hdr) == Accept && Target(ParsePm) == PM && !IsVariable(PM)
  {
  }

  lemma PmStep(packet: Bits, c: Config)
    requires c.state.ParsePm? && c.cursor == PmPlace(c.hdr) && !Step(packet, c).state.Reject?
    ensures Step(packet, c).state.Accept? && ReadAt(packet, Step(packet, c).hdr, PM, PmPlace(Step(packet, c).hdr))
  {
    hide Step, OptionGap, TcpOptionBits, ReadAt, Extracted, Layout, Select, Size, Target, IsVariable, Width;
    StepExtracts(packet, c);
    PmIsLast(Step(packet, c).hdr);
    var bits := packet[c.cursor..c.cursor + Size(c.state, c.hdr)];
    OuterFieldsStay(c.hdr, PM, Extracted(PM, bits));
    SameOffset(c.hdr, PM, Extracted(PM, bits));
    ReadHere(packet, c, PM, bits, Step(packet, c));
  }

  lemma {:induction false} FinishPlacesPm(packet: Bits, c: Config)
    requires Sound(packet, c) && PM !in c.hdr && (c.state.ParsePm? ==> c.cursor == PmPlace(c.hdr))
    ensures var r := Finish(packet, c); r.state.Accept? && PM in r.hdr ==> ReadAt(packet, r.hdr, PM, PmPlace(r.hdr))
    decreases Remaining(c.state)
  {
    if !Final(c.state) {
      var next := Step(packet, c);
      StepSound(packet, c);
      assert Structured(packet, c);
      hide Sound, Structured, Step, ReadAt, PmPlace;
      if !next.state.Reject? {
        if c.state.ParsePm? {
          PmStep(packet, c);
        } else {
          StepToPm(packet, c);
          FinishPlacesPm(packet, next);
        }
      }
    }
  }

  lemma AcceptedPm(packet: Bits)
    requires Parse(packet).state.Accept? && PM in Parse(packet).hdr
    ensures var hdr := Parse(packet).hdr;
            && Field(hdr, PM, 0) == BitsAt(packet, PmPlace(hdr), 32)
            && Field(hdr, PM, 1) == BitsAt(packet, PmPlace(hdr) + 32, 56)
  {
    hide Finish, Sound, ReadAt, PmPlace, Field, BitsAt;
    StartSound(packet);
    FinishPlacesPm(packet, START);
    PmIsRead(packet, Parse(packet).hdr, PmPlace(Parse(packet).hdr));
  }

  /** What flow monitoring and the controller read of an accepted packet, in bits of the
      packet: addresses, protocol and TTL behind the Ethernet header, ports and tunnel
      behind the outer options, and once more as many bits later inside a tunnel. */
  lemma AcceptedBits(packet: Bits)
    requires Parse(packet).state.Accept?
    ensures var hdr, meta, gap := Parse(packet).hdr, Parse(packet).meta, Gap(Parse(packet).hdr);
            && gap >= 0
            && (ETHERNET in hdr ==> EtherType(hdr, ETHERNET) == BitsAt(packet, 96, 16))
            && (FLOW_MON in hdr ==>
                  Field(hdr, FLOW_MON, 0) == BitsAt(packet, 112, 32) && Field(hdr, FLOW_MON, 1) == BitsAt(packet, 144, 8))
            && (IPV4 in hdr ==> ShowsIpv4(packet, hdr, IPV4, 112) && Field(hdr, IPV4, 7) == BitsAt(packet, 176, 8))
            && (TCP in hdr || UDP in hdr ==> meta.l4Lookup == [BitsAt(packet, 272 + gap, 16), BitsAt(packet, 288 + gap, 16)])
            && (VXLAN in hdr ==> meta.tenantId == BitsAt(packet, 368 + gap, 24))
            && (INNER_ETHERNET in hdr ==> EtherType(hdr, INNER_ETHERNET) == BitsAt(packet, 496 + gap, 16))
            && (INNER_IPV4 in hdr ==> ShowsIpv4(packet, hdr, INNER_IPV4, 512 + gap))
            && (INNER_TCP in hdr || INNER_UDP in hdr ==>
                  meta.innerL4Lookup == [BitsAt(packet, 672 + 2 * gap, 16), BitsAt(packet, 688 + 2 * gap, 16)])
  {
    hide Parse, ReadAt, OptionGap, Gap, Ihl, Field, BitsAt, ShowsIpv4, Placed, EtherType, Ports;
    AcceptedIsPlaced(packet);
    AcceptedGap(packet);
    NotedPortsAreThePorts(packet);
    var hdr := Parse(packet).hdr;
    OuterBits(packet, hdr);
    InnerBits(packet, hdr);
  }

  lemma OuterBits(packet: Bits, hdr: Headers)
    requires Placed(packet, hdr)
    ensures var gap := OptionGap(hdr);
            && (ETHERNET in hdr ==> EtherType(hdr, ETHERNET) == BitsAt(packet, 96, 16))
            && (FLOW_MON in hdr ==>
                  Field(hdr, FLOW_MON, 0) == BitsAt(packet, 112, 32) && Field(hdr, FLOW_MON, 1) == BitsAt(packet, 144, 8))
            && (IPV4 in hdr ==> ShowsIpv4(packet, hdr, IPV4, 112) && Field(hdr, IPV4, 7) == BitsAt(packet, 176, 8))
            && (TCP in hdr ==> Ports(hdr, TCP) == [BitsAt(packet, 272 + gap, 16), BitsAt(packet, 288 + gap, 16)])
            && (UDP in hdr ==> Ports(hdr, UDP) == [BitsAt(packet, 272 + gap, 16), BitsAt(packet, 288 + gap, 16)])
            && (VXLAN in hdr ==> Field(hdr, VXLAN, 2) == BitsAt(packet, 368 + gap, 24))
  {
    hide ReadAt, OptionGap, Field, BitsAt, ShowsIpv4, Placed, EtherType, Ports;
    if ETHERNET in hdr {
      PlaceAt(packet, hdr, ETHERNET);
      EtherTypeIsRead(packet, hdr, ETHERNET, 0);
    }
    if FLOW_MON in hdr {
      PlaceAt(packet, hdr, FLOW_MON);
      FlowMonIsRead(packet, hdr);
    }
    if IPV4 in hdr {
      PlaceAt(packet, hdr, IPV4);
      Ipv4IsRead(packet, hdr, IPV4, 112);
      TtlIsRead(packet, hdr);
    }
    if TCP in hdr {
      PlaceAt(packet, hdr, TCP);
      PortsAreRead(packet, hdr, TCP, 272 + OptionGap(hdr));
    }
    if UDP in hdr {
      PlaceAt(packet, hdr, UDP);
      PortsAreRead(packet, hdr, UDP, 272 + OptionGap(hdr));
    }
    if VXLAN in hdr {
      PlaceAt(packet, hdr, VXLAN);
      VniIsRead(packet, hdr, 336 + OptionGap(hdr));
    }
  }

  lemma InnerBits(packet: Bits, hdr: Headers)
    requires Placed(packet, hdr)
    ensures var gap := OptionGap(hdr);
            && (INNER_ETHERNET in hdr ==> EtherType(hdr, INNER_ETHERNET) == BitsAt(packet, 496 + gap, 16))
            && (INNER_IPV4 in hdr ==> ShowsIpv4(packet, hdr, INNER_IPV4, 512 + gap))
            && (INNER_TCP in hdr ==> Ports(hdr, INNER_TCP) == [BitsAt(packet, 672 + 2 * gap, 16), BitsAt(packet, 688 + 2 * gap, 16)])
            && (INNER_UDP in hdr ==> Ports(hdr, INNER_UDP) == [BitsAt(packet, 672 + 2 * gap, 16), BitsAt(packet, 688 + 2 * gap, 16)])
  {
    hide ReadAt, OptionGap, Field, BitsAt, ShowsIpv4, Placed, EtherType, Ports;
    if INNER_ETHERNET in hdr {
      PlaceAt(packet, hdr, INNER_ETHERNET);
      EtherTypeIsRead(packet, hdr, INNER_ETHERNET, 400 + OptionGap(hdr));
    }
    if INNER_IPV4 in hdr {
      PlaceAt(packet, hdr, INNER_IPV4);
      Ipv4IsRead(packet, hdr, INNER_IPV4, 512 + OptionGap(hdr));
    }
    if INNER_TCP in hdr {
      PlaceAt(packet, hdr, INNER_TCP);
      PortsAreRead(packet, hdr, INNER_TCP, 672 + 2 * OptionGap(hdr));
    }
    if INNER_UDP in hdr {
      PlaceAt(packet, hdr, INNER_UDP);
      PortsAreRead(packet, hdr, INNER_UDP, 672 + 2 * OptionGap(hdr));
    }
  }

  // -------------------------------------------------------------------------
  // A packet whose inner options are taken for ports
  // -------------------------------------------------------------------------

  /** UDP in VXLAN: the inner IPv4 header has one word of options, four NOPs, in front of
      a UDP header with ports 5000 and 6000. */
  const STACK: Headers :=
    map[ETHERNET := Fields([0, 0, 0x0800]),
        IPV4 := Fields([4, 5, 0, 0, 0, 0, 0, 0, 17, 0, 0, 0]),
        UDP := Fields([0, 4789, 0, 0]),
        VXLAN := Fields([0, 0, 0, 0]),
        INNER_ETHERNET := Fields([0, 0, 0x0800]),
        INNER_IPV4 := Fields([4, 6, 0, 0, 0, 0, 0, 0, 17, 0, 0, 0]),
        IPV4_OPTIONS := Options([]),
        INNER_UDP := Fields([0x0101, 0x0101, 5000, 6000]),
        PM := Fields([0, 0])]

  lemma SmallPowers()
    ensures Pow2(4) == 16 && Pow2(8) == 256 && Pow2(16) == 65536
  {
    assert Pow2(8) == 16 * Pow2(4);
    assert Pow2(12) == 16 * Pow2(8);
    assert Pow2(16) == 16 * Pow2(12);
  }

  lemma StackConforms(k: Kind)
    requires k in STACK
    ensures Conforms(k, STACK[k])
  {
    SmallPowers();
    hide Pow2;
  }

  lemma AllStackConforms()
    ensures AllConform(STACK)
  {
    hide Conforms;
    forall k | k in STACK
      ensures Conforms(k, STACK[k])
    {
      StackConforms(k);
    }
  }

  lemma StackIsAnnounced()
    ensures STACK.Keys == Announced(STACK)
    ensures !Bare(STACK) && Version(STACK) == 4 && Ihl(STACK) == 5
  {
    assert Announced(STACK) == {ETHERNET, IPV4, UDP, VXLAN, INNER_ETHERNET, INNER_IPV4, IPV4_OPTIONS, INNER_UDP, PM};
  }

  lemma StackOptions()
    ensures STACK[IPV4_OPTIONS] == Options([]) && TCP !in STACK && INNER_TCP !in STACK
  {
  }

  lemma UdpStackIsAdmissible(hdr: Headers, payload: Bits)
    requires hdr.Keys == Announced(hdr) && AllConform(hdr) && !Bare(hdr) && Version(hdr) == 4 && Ihl(hdr) == 5
    requires (IPV4_OPTIONS in hdr ==> hdr[IPV4_OPTIONS] == Options([])) && TCP !in hdr && INNER_TCP !in hdr
    ensures Admissible(hdr, Rest([], payload))
  {
    hide AllConform, Announced, Bare, Version, Ihl;
  }

  lemma StackIsAdmissible(payload: Bits)
    ensures Admissible(STACK, Rest([], payload))
  {
    hide *;
    AllStackConforms();
    StackIsAnnounced();
    StackOptions();
    UdpStackIsAdmissible(STACK, payload);
  }

  lemma LastTwo(layout: seq<nat>, bits: Bits)
    requires layout == [16, 16] + L4_LOOKUP && |bits| == Width(layout) == 64
    ensures Unpack(layout, bits)[2..] == Unpack(L4_LOOKUP, bits[32..])
  {
    assert layout[1..] == [16] + L4_LOOKUP && layout[1..][1..] == L4_LOOKUP;
    assert bits[16..][16..] == bits[32..];
    var values := Unpack(layout[1..], bits[16..]);
    assert values[1..] == Unpack(L4_LOOKUP, bits[32..]);
    assert Unpack(layout, bits)[1..] == values;
  }

  /** The last two fields of the inner UDP header. */
  lemma SecondHalf(packet: Bits, values: seq<nat>)
    requires |packet| >= 736 && Width(Layout(INNER_UDP)) == 64
    requires Extracted(INNER_UDP, packet[672..736]) == Fields(values)
    ensures Width(L4_LOOKUP) == 32 && Unpack(L4_LOOKUP, packet[704..736]) == values[2..]
  {
    var bits := packet[672..736];
    TwoPorts(bits[32..]);
    assert bits[32..] == packet[704..736];
    assert Layout(INNER_UDP) == [16, 16] + L4_LOOKUP;
    hide Unpack, Layout, Width;
    LastTwo(Layout(INNER_UDP), bits);
  }

  lemma InnerUdpWidth()
    ensures Width(Layout(INNER_UDP)) == 64
  {
    HeaderWidths(UDP);
    assert Layout(INNER_UDP) == Layout(UDP);
  }

  lemma StackFields()
    ensures Ihl(STACK) == 5 && Gap(STACK) == 0 && Field(STACK, INNER_IPV4, 1) == 6
    ensures InnerPayload(STACK) == 704 && Ports(STACK, INNER_UDP) == [0x0101, 0x0101]
    ensures INNER_UDP in STACK && STACK[INNER_UDP] == Fields([0x0101, 0x0101, 5000, 6000])
  {
  }

  /** An accepted packet, whatever its payload: the ports noted for its flow are bits of the
      inner options, and those of its UDP header stand where the inner header says. */
  lemma OptionsAreTakenForPorts(payload: Bits)
    ensures var packet := Emit(STACK) + payload;
            var c := Parse(packet);
            && c.state.Accept? && c.hdr == STACK && Ihl(c.hdr) == 5 && Field(c.hdr, INNER_IPV4, 1) == 6
            && c.meta.innerL4Lookup == [0x0101, 0x0101]
            && InnerPayload(c.hdr) == 704 && |packet| >= 736
            && Width(L4_LOOKUP) == 32 && Unpack(L4_LOOKUP, packet[704..736]) == [5000, 6000]
  {
    var packet := Emit(STACK) + payload;
    StackIsAdmissible(payload);
    EmittedIsParsed(STACK, payload);
    StackFields();
    hide Parse, Emit, Unpack, Admissible, Field, Layout, Width, Extracted;
    NotedPortsAreThePorts(packet);
    InnerHeaderPlaceIff(packet, INNER_UDP);
    InnerUdpWidth();
    SecondHalf(packet, STACK[INNER_UDP].values);
  }
}
