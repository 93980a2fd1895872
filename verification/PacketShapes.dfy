/** The header stacks the parser accepts, listed by the fields that announce them. */
module PacketShapes {
  import opened BitFields
  import opened EtherTypes
  import opened PacketParser
  import opened PacketRoundTrip
  import opened PacketStacks
  import opened PacketAcceptance

  // -------------------------------------------------------------------------
  // The list
  // -------------------------------------------------------------------------

  function InnerTransport(hdr: Headers): set<Kind> {
    var p := Protocol(hdr, INNER_IPV4);
    if p == PROTOCOL_ICMP then {INNER_ICMP}
    else if p == PROTOCOL_TCP then {INNER_TCP, INNER_TCP_OPTIONS, PM}
    else if p == PROTOCOL_UDP then {INNER_UDP, PM}
    else {}
  }

  function Inner(hdr: Headers): set<Kind> {
    if EtherType(hdr, INNER_ETHERNET) == ETHERTYPE_IPV4 then {INNER_IPV4, IPV4_OPTIONS} + InnerTransport(hdr) else {}
  }

  function Transport(hdr: Headers): set<Kind> {
    var p := Protocol(hdr, IPV4);
    if p == PROTOCOL_ICMP then {ICMP}
    else if p == PROTOCOL_TCP then {TCP, TCP_OPTIONS}
    else if p != PROTOCOL_UDP then {}
    else if Field(hdr, UDP, 1) == UDP_PORT_VXLAN then {UDP, VXLAN, INNER_ETHERNET} + Inner(hdr)
    else {UDP, PM}
  }

  /** The headers that the fields of a stack announce, besides outer options. */
  function Stacked(hdr: Headers): set<Kind> {
    var t := EtherType(hdr, ETHERNET);
    if t == ETHERTYPE_IPV4 then {ETHERNET, IPV4} + Transport(hdr)
    else if t == ETHERTYPE_FLOW_MONITORING then {ETHERNET, FLOW_MON}
    else if t == ETHERTYPE_FLOW_EXPORT_REQUEST then {ETHERNET, FLOW_EXPORT_REQUEST}
    else if t == ETHERTYPE_FLOW_EXPORT_RESPONSE then {ETHERNET, FLOW_RECORD_DATA}
    else {ETHERNET}
  }

  function Announced(hdr: Headers): set<Kind> {
    if EtherType(hdr, ETHERNET) == ETHERTYPE_IPV4 && Ihl(hdr) > 5 then Stacked(hdr) + {IPV4_OPTIONS} else Stacked(hdr)
  }

  /** An IPv4 header without a transport header the parser knows. */
  predicate Bare(hdr: Headers) {
    || (IPV4 in hdr && Transport(hdr) == {})
    || (INNER_IPV4 in hdr && InnerTransport(hdr) == {})
  }

  ghost predicate OptionsFit(hdr: Headers, tcp: Kind, options: Kind) {
    tcp in hdr && options in hdr ==>
      DataOffset(hdr, tcp) >= 5 && hdr[options].Options? && |hdr[options].bits| == (DataOffset(hdr, tcp) - 5) * 32
  }

  /** Bits of IPv4 options by the outer header length, which counts for the inner ones too. */
  function OptionBits(hdr: Headers): int {
    if IPV4 in hdr then (Ihl(hdr) - 5) * 32 else 0
  }

  /** The last options extracted: the inner ones, if there is an inner IPv4 header. */
  ghost predicate Ipv4OptionsFit(hdr: Headers, rest: Rest) {
    && |rest.options| == OptionBits(hdr)
    && (IPV4_OPTIONS in hdr ==>
          && hdr[IPV4_OPTIONS].Options? && |hdr[IPV4_OPTIONS].bits| == OptionBits(hdr)
          && (INNER_IPV4 in hdr || hdr[IPV4_OPTIONS].bits == rest.options))
  }

  /** The headers are those announced, with fields and options of the right size; behind an
      IPv4 header alone the payload has the 32 bits the parser looks at for ports. */
  ghost predicate Admissible(hdr: Headers, rest: Rest) {
    && hdr.Keys == Announced(hdr)
    && AllConform(hdr)
    && (IPV4 in hdr ==> Version(hdr) == 4 && Ihl(hdr) >= 5)
    && Ipv4OptionsFit(hdr, rest)
    && OptionsFit(hdr, TCP, TCP_OPTIONS)
    && OptionsFit(hdr, INNER_TCP, INNER_TCP_OPTIONS)
    && (Bare(hdr) ==> |rest.payload| >= 32)
  }

  // -------------------------------------------------------------------------
  // State by state
  // -------------------------------------------------------------------------

  /** Length of a header in bits, as the header before announces it. */
  function Length(hdr: Headers, k: Kind): nat {
    if k == IPV4_OPTIONS then Ipv4OptionBits(hdr)
    else if k == TCP_OPTIONS then TcpOptionBits(hdr, TCP)
    else if k == INNER_TCP_OPTIONS then TcpOptionBits(hdr, INNER_TCP)
    else Width(Layout(k))
  }

  ghost predicate Good(hdr: Headers, k: Kind) {
    k in hdr && Conforms(k, hdr[k]) && |Encode(k, hdr[k])| == Length(hdr, k)
  }

  /** From `lo` on the stack has exactly these headers. */
  ghost predicate Stack(hdr: Headers, rest: Rest, lo: nat, ks: set<Kind>, bare: bool) {
    && (forall k :: k in ks ==> Good(hdr, k))
    && (forall k: Kind :: lo <= k < EMITTED && k in hdr ==> k in ks)
    && (bare ==> |rest.payload| >= 32)
  }

  lemma SizeIsLength(s: State, hdr: Headers)
    requires !Final(s) && !Looks(s)
    ensures Size(s, hdr) == Length(hdr, Target(s))
  {
    hide Layout, Ipv4OptionBits, TcpOptionBits;
  }

  lemma CompleteUnfolds(s: State, hdr: Headers, rest: Rest)
    requires !Final(s) && !Looks(s) && !s.ParseIpv4Options?
    ensures Complete(s, hdr, rest) <==>
              && Good(hdr, Target(s)) && NoneBetween(hdr, After(s), NextRank(Select(s, hdr)))
              && Complete(Select(s, hdr), hdr, rest)
  {
    SelectAdvances(s, hdr);
    SizeIsLength(s, hdr);
    hide Conforms, Encode, Layout, NoneBetween, Select, Size, Length, NextRank, Target, After;
  }

  lemma StackGrows(hdr: Headers, rest: Rest, lo: nat, k: Kind, next: nat, ks: set<Kind>, bare: bool)
    requires k == IPV4_OPTIONS || k == lo
    requires forall j :: j in ks ==> j >= next
    requires (if k == IPV4_OPTIONS then lo else k + 1) <= next <= EMITTED
    ensures Good(hdr, k) && NoneBetween(hdr, if k == IPV4_OPTIONS then lo else k + 1, next) && Stack(hdr, rest, next, ks, bare)
            <==> Stack(hdr, rest, lo, {k} + ks, bare)
  {
    hide Good;
    if Stack(hdr, rest, lo, {k} + ks, bare) {
      assert Good(hdr, k);
    }
  }

  /** An extracting state puts its header in front. */
  lemma ExtractIff(s: State, hdr: Headers, rest: Rest, ks: set<Kind>, bare: bool)
    requires !Final(s) && !Looks(s) && !s.ParseIpv4Options? && forall k :: k in ks ==> k >= NextRank(Select(s, hdr))
    requires Complete(Select(s, hdr), hdr, rest) <==> Stack(hdr, rest, NextRank(Select(s, hdr)), ks, bare)
    ensures Complete(s, hdr, rest) <==> Stack(hdr, rest, NextRank(s), {Target(s)} + ks, bare)
  {
    SelectAdvances(s, hdr);
    CompleteUnfolds(s, hdr, rest);
    StackGrows(hdr, rest, NextRank(s), Target(s), NextRank(Select(s, hdr)), ks, bare);
    hide Complete, Stack, Good, NoneBetween, Select;
    TargetIsNext(s);
  }

  lemma TargetIsNext(s: State)
    requires !Final(s) && !Looks(s)
    ensures Target(s) == IPV4_OPTIONS || Target(s) == NextRank(s)
    ensures NextRank(s) <= EMITTED
  {
  }

  lemma AcceptIff(hdr: Headers, rest: Rest)
    ensures Complete(Accept, hdr, rest) <==> Stack(hdr, rest, NextRank(Accept), {}, false)
  {
  }

  lemma HeaderIsLong(k: Kind)
    requires k == ICMP || k == TCP || k == UDP || k == INNER_ICMP || k == INNER_TCP || k == INNER_UDP
    ensures Width(Layout(k)) >= 32
  {
    HeaderWidths(k);
    assert Layout(INNER_ICMP) == Layout(ICMP) && Layout(INNER_UDP) == Layout(UDP);
    assert Width([8, 8, 16]) == 32;
  }

  /** A transport header has the bits a lookahead needs. */
  lemma TransportAhead(hdr: Headers, rest: Rest, lo: nat, k: Kind)
    requires k == ICMP || k == TCP || k == UDP || k == INNER_ICMP || k == INNER_TCP || k == INNER_UDP
    requires lo <= k && NoneBetween(hdr, lo, k) && Good(hdr, k)
    ensures |WireFrom(hdr, lo, rest)| >= 32
  {
    HeaderIsLong(k);
    WireSkips(hdr, lo, k, rest);
    WireUnfolds(hdr, k, rest);
    hide Layout, Encode, WireFrom, NoneBetween;
  }

  lemma LookUnfolds(s: State, hdr: Headers, rest: Rest)
    requires Looks(s)
    ensures Complete(s, hdr, rest) <==>
              && |WireFrom(hdr, NextRank(s), rest)| >= 32 && NoneBetween(hdr, NextRank(s), NextRank(Select(s, hdr)))
              && Complete(Select(s, hdr), hdr, rest)
  {
    SelectAdvances(s, hdr);
    hide WireFrom, NoneBetween, Select;
  }

  lemma StackWidens(hdr: Headers, rest: Rest, lo: nat, next: nat, ks: set<Kind>, bare: bool)
    requires lo <= next <= EMITTED && forall j :: j in ks ==> j >= next
    ensures NoneBetween(hdr, lo, next) && Stack(hdr, rest, next, ks, bare) <==> Stack(hdr, rest, lo, ks, bare)
  {
    hide Good;
  }

  lemma StackHas(hdr: Headers, rest: Rest, lo: nat, ks: set<Kind>, bare: bool, k: Kind)
    requires Stack(hdr, rest, lo, ks, bare) && k in ks
    ensures Good(hdr, k) && k in hdr
  {
  }

  /** A state that only looks ahead, in front of a transport header. */
  lemma LookIff(s: State, hdr: Headers, rest: Rest, ks: set<Kind>, bare: bool, k: Kind)
    requires Looks(s) && k in ks && k == NextRank(Select(s, hdr)) && forall j :: j in ks ==> j >= k
    requires k == ICMP || k == TCP || k == UDP || k == INNER_ICMP || k == INNER_TCP || k == INNER_UDP
    requires Complete(Select(s, hdr), hdr, rest) <==> Stack(hdr, rest, k, ks, bare)
    ensures Complete(s, hdr, rest) <==> Stack(hdr, rest, NextRank(s), ks, bare)
  {
    LookUnfolds(s, hdr, rest);
    SelectAdvances(s, hdr);
    StackWidens(hdr, rest, NextRank(s), k, ks, bare);
    hide Complete, Select, WireFrom, Good, Looks, NextRank, Stack, NoneBetween;
    if Stack(hdr, rest, k, ks, bare) && NoneBetween(hdr, NextRank(s), k) {
      StackHas(hdr, rest, k, ks, bare, k);
      TransportAhead(hdr, rest, NextRank(s), k);
    }
  }

  lemma PayloadIff(hdr: Headers, rest: Rest, lo: nat)
    requires lo <= EMITTED
    ensures NoneBetween(hdr, lo, EMITTED) ==> WireFrom(hdr, lo, rest) == rest.payload
    ensures Stack(hdr, rest, EMITTED, {}, true) <==> |rest.payload| >= 32
  {
    if NoneBetween(hdr, lo, EMITTED) {
      WireSkips(hdr, lo, EMITTED, rest);
    }
  }

  /** A state that only looks ahead, in front of the payload. */
  lemma LookAtPayloadIff(s: State, hdr: Headers, rest: Rest)
    requires Looks(s) && Select(s, hdr).Accept?
    ensures Complete(s, hdr, rest) <==> Stack(hdr, rest, NextRank(s), {}, true)
  {
    assert Select(s, hdr) == Accept && NextRank(Accept) == EMITTED && NextRank(s) <= EMITTED;
    assert Complete(Accept, hdr, rest);
    hide *;
    LookUnfolds(s, hdr, rest);
    StackWidens(hdr, rest, NextRank(s), EMITTED, {}, true);
    PayloadIff(hdr, rest, NextRank(s));
  }

  lemma PmIff(hdr: Headers, rest: Rest)
    ensures Complete(ParsePm, hdr, rest) <==> Stack(hdr, rest, PM, {PM}, false)
  {
    AcceptIff(hdr, rest);
    hide Complete, Stack;
    ExtractIff(ParsePm, hdr, rest, {}, false);
    assert {PM} + {} == {PM};
  }

  lemma InnerUdpIff(hdr: Headers, rest: Rest)
    ensures Complete(ParseInnerUdp, hdr, rest) <==> Stack(hdr, rest, INNER_UDP, {INNER_UDP, PM}, false)
  {
    PmIff(hdr, rest);
    hide Complete, Stack;
    ExtractIff(ParseInnerUdp, hdr, rest, {PM}, false);
    assert {INNER_UDP} + {PM} == {INNER_UDP, PM};
  }

  lemma InnerTcpIff(hdr: Headers, rest: Rest)
    ensures Complete(ParseInnerTcp, hdr, rest) <==> Stack(hdr, rest, INNER_TCP, {INNER_TCP, INNER_TCP_OPTIONS, PM}, false)
  {
    PmIff(hdr, rest);
    hide Complete, Stack;
    ExtractIff(ParseInnerTcpOptions, hdr, rest, {PM}, false);
    ExtractIff(ParseInnerTcp, hdr, rest, {INNER_TCP_OPTIONS} + {PM}, false);
    assert {INNER_TCP} + ({INNER_TCP_OPTIONS} + {PM}) == {INNER_TCP, INNER_TCP_OPTIONS, PM};
  }

  lemma InnerIcmpIff(hdr: Headers, rest: Rest)
    ensures Complete(ParseInnerIcmp, hdr, rest) <==> Stack(hdr, rest, INNER_ICMP, {INNER_ICMP}, false)
  {
    AcceptIff(hdr, rest);
    hide Complete, Stack;
    ExtractIff(ParseInnerIcmp, hdr, rest, {}, false);
    assert {INNER_ICMP} + {} == {INNER_ICMP};
  }

  lemma InnerTransportIff(hdr: Headers, rest: Rest)
    ensures Complete(ParseInnerIpv4NoOptions, hdr, rest) <==>
            Stack(hdr, rest, INNER_ICMP, InnerTransport(hdr), InnerTransport(hdr) == {})
  {
    InnerIcmpIff(hdr, rest);
    InnerTcpIff(hdr, rest);
    InnerUdpIff(hdr, rest);
    hide Complete, Stack, Protocol;
    var p := Protocol(hdr, INNER_IPV4);
    if p == PROTOCOL_ICMP {
      LookIff(ParseInnerIpv4NoOptions, hdr, rest, {INNER_ICMP}, false, INNER_ICMP);
    } else if p == PROTOCOL_TCP {
      LookIff(ParseInnerIpv4NoOptions, hdr, rest, {INNER_TCP, INNER_TCP_OPTIONS, PM}, false, INNER_TCP);
    } else if p == PROTOCOL_UDP {
      LookIff(ParseInnerIpv4NoOptions, hdr, rest, {INNER_UDP, PM}, false, INNER_UDP);
    } else {
      LookAtPayloadIff(ParseInnerIpv4NoOptions, hdr, rest);
    }
  }

  predicate InnerBare(hdr: Headers) {
    EtherType(hdr, INNER_ETHERNET) == ETHERTYPE_IPV4 && InnerTransport(hdr) == {}
  }

  lemma InnerIpv4Iff(hdr: Headers, rest: Rest)
    ensures Complete(ParseInnerIpv4, hdr, rest) <==>
            Stack(hdr, rest, INNER_IPV4, {INNER_IPV4, IPV4_OPTIONS} + InnerTransport(hdr), InnerTransport(hdr) == {})
  {
    InnerTransportIff(hdr, rest);
    InnerTransportRanks(hdr);
    hide Complete, Stack, InnerTransport;
    var ks, bare := InnerTransport(hdr), InnerTransport(hdr) == {};
    ExtractIff(ParseInnerIpv4Options, hdr, rest, ks, bare);
    ExtractIff(ParseInnerIpv4, hdr, rest, {IPV4_OPTIONS} + ks, bare);
    assert {INNER_IPV4} + ({IPV4_OPTIONS} + ks) == {INNER_IPV4, IPV4_OPTIONS} + ks;
  }

  lemma InnerTransportRanks(hdr: Headers)
    ensures forall k :: k in InnerTransport(hdr) ==> INNER_ICMP <= k < EMITTED
    ensures INNER_IPV4 !in InnerTransport(hdr) && IPV4_OPTIONS !in InnerTransport(hdr)
  {
  }

  lemma InnerIff(hdr: Headers, rest: Rest)
    ensures Complete(ParseInnerEthernet, hdr, rest) <==>
            Stack(hdr, rest, INNER_ETHERNET, {INNER_ETHERNET} + Inner(hdr), InnerBare(hdr))
  {
    InnerIpv4Iff(hdr, rest);
    InnerTransportRanks(hdr);
    AcceptIff(hdr, rest);
    hide Complete, Stack, InnerTransport, EtherType;
    ExtractIff(ParseInnerEthernet, hdr, rest, Inner(hdr), InnerBare(hdr));
  }

  lemma InnerRanks(hdr: Headers)
    ensures forall k :: k in Inner(hdr) ==> k >= INNER_IPV4
  {
    InnerTransportRanks(hdr);
    hide InnerTransport;
  }

  lemma VxlanIff(hdr: Headers, rest: Rest)
    ensures Complete(ParseVxlan, hdr, rest) <==>
            Stack(hdr, rest, VXLAN, {VXLAN, INNER_ETHERNET} + Inner(hdr), InnerBare(hdr))
  {
    InnerIff(hdr, rest);
    InnerRanks(hdr);
    hide Complete, Stack, Inner, InnerBare;
    ExtractIff(ParseVxlan, hdr, rest, {INNER_ETHERNET} + Inner(hdr), InnerBare(hdr));
    assert {VXLAN} + ({INNER_ETHERNET} + Inner(hdr)) == {VXLAN, INNER_ETHERNET} + Inner(hdr);
  }

  function UdpKinds(hdr: Headers): set<Kind> {
    if Field(hdr, UDP, 1) == UDP_PORT_VXLAN then {UDP, VXLAN, INNER_ETHERNET} + Inner(hdr) else {UDP, PM}
  }

  predicate UdpBare(hdr: Headers) {
    Field(hdr, UDP, 1) == UDP_PORT_VXLAN && InnerBare(hdr)
  }

  lemma UdpIff(hdr: Headers, rest: Rest)
    ensures Complete(ParseUdp, hdr, rest) <==> Stack(hdr, rest, UDP, UdpKinds(hdr), UdpBare(hdr))
  {
    VxlanIff(hdr, rest);
    PmIff(hdr, rest);
    InnerRanks(hdr);
    hide Complete, Stack, Inner, InnerBare, Field;
    if Field(hdr, UDP, 1) == UDP_PORT_VXLAN {
      ExtractIff(ParseUdp, hdr, rest, {VXLAN, INNER_ETHERNET} + Inner(hdr), InnerBare(hdr));
      assert {UDP} + ({VXLAN, INNER_ETHERNET} + Inner(hdr)) == {UDP, VXLAN, INNER_ETHERNET} + Inner(hdr);
    } else {
      ExtractIff(ParseUdp, hdr, rest, {PM}, false);
      assert {UDP} + {PM} == {UDP, PM};
    }
  }

  lemma TcpIff(hdr: Headers, rest: Rest)
    ensures Complete(ParseTcp, hdr, rest) <==> Stack(hdr, rest, TCP, {TCP, TCP_OPTIONS}, false)
  {
    AcceptIff(hdr, rest);
    hide Complete, Stack;
    ExtractIff(ParseTcpOptions, hdr, rest, {}, false);
    ExtractIff(ParseTcp, hdr, rest, {TCP_OPTIONS} + {}, false);
    assert {TCP} + ({TCP_OPTIONS} + {}) == {TCP, TCP_OPTIONS};
  }

  lemma IcmpIff(hdr: Headers, rest: Rest)
    ensures Complete(ParseIcmp, hdr, rest) <==> Stack(hdr, rest, ICMP, {ICMP}, false)
  {
    AcceptIff(hdr, rest);
    hide Complete, Stack;
    ExtractIff(ParseIcmp, hdr, rest, {}, false);
    assert {ICMP} + {} == {ICMP};
  }

  predicate TransportBare(hdr: Headers) {
    Transport(hdr) == {} || (Protocol(hdr, IPV4) == PROTOCOL_UDP && UdpBare(hdr))
  }

  lemma UdpRanks(hdr: Headers)
    ensures UDP in UdpKinds(hdr) && forall k :: k in UdpKinds(hdr) ==> k >= UDP
  {
    InnerRanks(hdr);
    hide Inner;
  }

  lemma TransportIff(hdr: Headers, rest: Rest)
    ensures Complete(ParseIpv4NoOptions, hdr, rest) <==> Stack(hdr, rest, ICMP, Transport(hdr), TransportBare(hdr))
  {
    IcmpIff(hdr, rest);
    TcpIff(hdr, rest);
    UdpIff(hdr, rest);
    UdpRanks(hdr);
    hide Complete, Stack, Protocol, UdpBare, Inner;
    var p := Protocol(hdr, IPV4);
    if p == PROTOCOL_ICMP {
      LookIff(ParseIpv4NoOptions, hdr, rest, {ICMP}, false, ICMP);
    } else if p == PROTOCOL_TCP {
      LookIff(ParseIpv4NoOptions, hdr, rest, {TCP, TCP_OPTIONS}, false, TCP);
    } else if p == PROTOCOL_UDP {
      LookIff(ParseIpv4NoOptions, hdr, rest, UdpKinds(hdr), UdpBare(hdr), UDP);
    } else {
      LookAtPayloadIff(ParseIpv4NoOptions, hdr, rest);
    }
  }

  predicate StackedBare(hdr: Headers) {
    EtherType(hdr, ETHERNET) == ETHERTYPE_IPV4 && TransportBare(hdr)
  }

  lemma TransportRanks(hdr: Headers)
    ensures forall k :: k in Transport(hdr) ==> k >= ICMP
  {
    InnerRanks(hdr);
    hide Inner, Protocol, Field;
  }

  predicate Ipv4Checked(hdr: Headers) {
    Version(hdr) == 4 && Ihl(hdr) >= 5
  }

  lemma UncheckedIpv4(hdr: Headers, rest: Rest)
    requires !Ipv4Checked(hdr)
    ensures !Complete(ParseIpv4, hdr, rest)
  {
    assert Select(ParseIpv4, hdr).Reject?;
    hide Select;
  }

  /** With the announced length, outer options add nothing to the headers that follow. */
  lemma OuterOptionsIff(hdr: Headers, rest: Rest)
    requires IPV4 in hdr && Conforms(IPV4, hdr[IPV4]) && Ipv4Checked(hdr) && |rest.options| == OptionGap(hdr)
    ensures Complete(ParseIpv4Options, hdr, rest) <==> Complete(ParseIpv4NoOptions, hdr, rest)
  {
    IhlIsFourBits(hdr);
    assert Select(ParseIpv4Options, hdr) == ParseIpv4NoOptions;
    assert Holds(ParseIpv4Options, hdr, rest);
    assert NoneBetween(hdr, After(ParseIpv4Options), NextRank(ParseIpv4NoOptions));
    hide Select, Conforms, Holds, NoneBetween;
  }

  lemma AfterIpv4Iff(hdr: Headers, rest: Rest)
    requires Good(hdr, IPV4) && Ipv4Checked(hdr) && |rest.options| == OptionGap(hdr)
    ensures Complete(Select(ParseIpv4, hdr), hdr, rest) <==> Stack(hdr, rest, ICMP, Transport(hdr), TransportBare(hdr))
    ensures NextRank(Select(ParseIpv4, hdr)) == ICMP
  {
    TransportIff(hdr, rest);
    assert Select(ParseIpv4, hdr) == if Ihl(hdr) == 5 then ParseIpv4NoOptions else ParseIpv4Options;
    hide Complete, Stack, Transport, TransportBare, Select;
    OuterOptionsIff(hdr, rest);
  }

  lemma Ipv4Iff(hdr: Headers, rest: Rest)
    requires |rest.options| == OptionGap(hdr)
    ensures Complete(ParseIpv4, hdr, rest) <==>
            Ipv4Checked(hdr) && Stack(hdr, rest, IPV4, {IPV4} + Transport(hdr), TransportBare(hdr))
  {
    TransportRanks(hdr);
    CompleteUnfolds(ParseIpv4, hdr, rest);
    StackHasAll(hdr, rest, IPV4, {IPV4} + Transport(hdr), TransportBare(hdr), IPV4);
    hide Complete, Stack, Transport, TransportBare, Ipv4Checked, Good, OptionGap;
    if !Ipv4Checked(hdr) {
      UncheckedIpv4(hdr, rest);
    } else if Good(hdr, IPV4) {
      ExtractIpv4Iff(hdr, rest);
    }
  }

  lemma StackHasAll(hdr: Headers, rest: Rest, lo: nat, ks: set<Kind>, bare: bool, k: Kind)
    requires k in ks
    ensures Stack(hdr, rest, lo, ks, bare) ==> Good(hdr, k)
  {
  }

  lemma ExtractIpv4Iff(hdr: Headers, rest: Rest)
    requires Good(hdr, IPV4) && Ipv4Checked(hdr) && |rest.options| == OptionGap(hdr)
    ensures Complete(ParseIpv4, hdr, rest) <==> Stack(hdr, rest, IPV4, {IPV4} + Transport(hdr), TransportBare(hdr))
  {
    TransportRanks(hdr);
    AfterIpv4Iff(hdr, rest);
    hide Complete, Stack, Transport, TransportBare, Ipv4Checked, Good, OptionGap, Select;
    ExtractIff(ParseIpv4, hdr, rest, Transport(hdr), TransportBare(hdr));
  }

  /** The states of the three monitoring messages. */
  lemma MessageIff(s: State, hdr: Headers, rest: Rest)
    requires s.ParseFlowMonitoring? || s.ParseFlowExportRequest? || s.ParseFlowExportResponse?
    ensures Complete(s, hdr, rest) <==> Stack(hdr, rest, NextRank(s), {Target(s)}, false)
  {
    AcceptIff(hdr, rest);
    hide Complete, Stack;
    ExtractIff(s, hdr, rest, {}, false);
    assert {Target(s)} + {} == {Target(s)};
  }

  lemma Ipv4FrameIff(hdr: Headers, rest: Rest)
    requires |rest.options| == OptionGap(hdr) && EtherType(hdr, ETHERNET) == ETHERTYPE_IPV4
    ensures Complete(ParseEthernet, hdr, rest) <==>
            Ipv4Checked(hdr) && Stack(hdr, rest, 0, {ETHERNET, IPV4} + Transport(hdr), TransportBare(hdr))
  {
    Ipv4Iff(hdr, rest);
    TransportRanks(hdr);
    assert Select(ParseEthernet, hdr) == ParseIpv4;
    hide Complete, Stack, Transport, TransportBare, EtherType, Ipv4Checked, OptionGap, Select;
    if Ipv4Checked(hdr) {
      ExtractIff(ParseEthernet, hdr, rest, {IPV4} + Transport(hdr), TransportBare(hdr));
      assert {ETHERNET} + ({IPV4} + Transport(hdr)) == {ETHERNET, IPV4} + Transport(hdr);
    } else {
      CompleteUnfolds(ParseEthernet, hdr, rest);
    }
  }

  function MessageOf(hdr: Headers): set<Kind> {
    var t := EtherType(hdr, ETHERNET);
    if t == ETHERTYPE_FLOW_MONITORING then {FLOW_MON}
    else if t == ETHERTYPE_FLOW_EXPORT_REQUEST then {FLOW_EXPORT_REQUEST}
    else if t == ETHERTYPE_FLOW_EXPORT_RESPONSE then {FLOW_RECORD_DATA}
    else {}
  }

  lemma MessageAheadIff(hdr: Headers, rest: Rest)
    requires EtherType(hdr, ETHERNET) != ETHERTYPE_IPV4
    ensures var next := Select(ParseEthernet, hdr);
            && (forall k :: k in MessageOf(hdr) ==> k >= NextRank(next))
            && (Complete(next, hdr, rest) <==> Stack(hdr, rest, NextRank(next), MessageOf(hdr), false))
  {
    hide Complete, Stack, EtherType;
    var t := EtherType(hdr, ETHERNET);
    if t == ETHERTYPE_FLOW_MONITORING {
      MessageIff(ParseFlowMonitoring, hdr, rest);
    } else if t == ETHERTYPE_FLOW_EXPORT_REQUEST {
      MessageIff(ParseFlowExportRequest, hdr, rest);
    } else if t == ETHERTYPE_FLOW_EXPORT_RESPONSE {
      MessageIff(ParseFlowExportResponse, hdr, rest);
    } else {
      AcceptIff(hdr, rest);
    }
  }

  lemma OtherFrameIff(hdr: Headers, rest: Rest)
    requires EtherType(hdr, ETHERNET) != ETHERTYPE_IPV4
    ensures Complete(ParseEthernet, hdr, rest) <==> Stack(hdr, rest, 0, Stacked(hdr), false)
  {
    MessageAheadIff(hdr, rest);
    assert Stacked(hdr) == {ETHERNET} + MessageOf(hdr);
    hide Complete, Stack, EtherType, Stacked, MessageOf, Select;
    ExtractIff(ParseEthernet, hdr, rest, MessageOf(hdr), false);
  }

  lemma FrameIff(hdr: Headers, rest: Rest)
    requires |rest.options| == OptionGap(hdr)
    ensures Complete(ParseEthernet, hdr, rest) <==>
              && (EtherType(hdr, ETHERNET) == ETHERTYPE_IPV4 ==> Ipv4Checked(hdr))
              && Stack(hdr, rest, 0, Stacked(hdr), StackedBare(hdr))
  {
    if EtherType(hdr, ETHERNET) == ETHERTYPE_IPV4 {
      hide Complete, Stack, EtherType, Transport, TransportBare, Ipv4Checked, OptionGap;
      Ipv4FrameIff(hdr, rest);
    } else {
      hide Complete, Stack, EtherType, Stacked, Ipv4Checked, OptionGap;
      OtherFrameIff(hdr, rest);
    }
  }

  // -------------------------------------------------------------------------
  // The whole stack
  // -------------------------------------------------------------------------

  /** How the announced headers depend on each other. */
  lemma StackedTogether(hdr: Headers)
    ensures var ks := Stacked(hdr);
            && (INNER_IPV4 in ks <==> IPV4_OPTIONS in ks)
            && (IPV4_OPTIONS in ks ==> IPV4 in ks)
            && (TCP in ks <==> TCP_OPTIONS in ks) && (INNER_TCP in ks <==> INNER_TCP_OPTIONS in ks)
            && (IPV4 in ks <==> EtherType(hdr, ETHERNET) == ETHERTYPE_IPV4)
            && (StackedBare(hdr) <==>
                  (IPV4 in ks && Transport(hdr) == {}) || (INNER_IPV4 in ks && InnerTransport(hdr) == {}))
  {
    InnerTransportRanks(hdr);
    hide EtherType, Protocol, Field;
  }

  /** Outer options are there exactly if the header is longer than five words. */
  lemma GapIff(hdr: Headers, rest: Rest)
    requires IPV4 in hdr ==> Ipv4Checked(hdr)
    ensures |rest.options| == OptionGap(hdr) <==> |rest.options| == OptionBits(hdr)
    ensures |rest.options| == OptionGap(hdr) ==> (rest.options != [] <==> IPV4 in hdr && Ihl(hdr) > 5)
  {
    hide Ihl, Version;
  }

  lemma KeysIff(hdr: Headers, rest: Rest)
    requires (forall k: Kind :: k in Stacked(hdr) ==> k in hdr) || hdr.Keys == Announced(hdr)
    requires IPV4 in hdr ==> Ipv4Checked(hdr)
    requires |rest.options| == OptionGap(hdr)
    ensures hdr.Keys == Announced(hdr) <==>
              && (forall k: Kind :: k in Stacked(hdr) ==> k in hdr)
              && (forall k: Kind :: k < EMITTED && k in hdr ==> k in Stacked(hdr))
              && (IPV4_OPTIONS in hdr <==> INNER_IPV4 in hdr || rest.options != [])
  {
    StackedTogether(hdr);
    GapIff(hdr, rest);
    hide Stacked, StackedBare, EtherType, Ihl, OptionGap, Transport, InnerTransport, Ipv4Checked;
  }

  lemma GoodTcpOptions(hdr: Headers, tcp: Kind, options: Kind)
    requires (tcp == TCP && options == TCP_OPTIONS) || (tcp == INNER_TCP && options == INNER_TCP_OPTIONS)
    requires tcp in hdr && options in hdr && Conforms(tcp, hdr[tcp]) && Conforms(options, hdr[options])
    ensures OptionsFit(hdr, tcp, options) <==> Good(hdr, options)
  {
    if TcpOptionBits(hdr, tcp) <= MAX_OPTIONS {
      TcpOffsetDoesNotWrap(hdr, tcp);
    }
  }

  lemma GoodIpv4Options(hdr: Headers)
    requires IPV4 in hdr && IPV4_OPTIONS in hdr && Ipv4Checked(hdr) && Conforms(IPV4, hdr[IPV4])
    ensures Good(hdr, IPV4_OPTIONS) <==> hdr[IPV4_OPTIONS].Options? && |hdr[IPV4_OPTIONS].bits| == OptionBits(hdr)
  {
    IhlIsFourBits(hdr);
  }

  lemma GoodFixed(hdr: Headers, k: Kind)
    requires k in hdr && !IsVariable(k)
    ensures Good(hdr, k) <==> Conforms(k, hdr[k])
  {
    if Conforms(k, hdr[k]) {
      StoredReturns(k, hdr[k]);
    }
  }

  lemma GoodConforms(hdr: Headers, k: Kind)
    requires Good(hdr, k)
    ensures k in hdr && Conforms(k, hdr[k])
  {
  }

  /** Outer options alone. */
  ghost predicate LastOptions(hdr: Headers, rest: Rest) {
    INNER_IPV4 !in hdr && rest.options != [] ==> IPV4_OPTIONS in hdr && hdr[IPV4_OPTIONS] == Options(rest.options)
  }

  lemma OptionsOfStack(hdr: Headers, rest: Rest)
    requires hdr.Keys == Announced(hdr) && (IPV4 in hdr ==> Ipv4Checked(hdr) && Conforms(IPV4, hdr[IPV4]))
    requires |rest.options| == OptionGap(hdr)
    requires (INNER_IPV4 in hdr ==> Good(hdr, IPV4_OPTIONS)) && LastOptions(hdr, rest)
    ensures Ipv4OptionsFit(hdr, rest) && (IPV4_OPTIONS in hdr ==> Conforms(IPV4_OPTIONS, hdr[IPV4_OPTIONS]))
  {
    StackedTogether(hdr);
    GapIff(hdr, rest);
    KeysOfStack(hdr);
    hide Announced, Stacked, StackedBare, EtherType, Transport, InnerTransport, Ipv4Checked;
    if IPV4_OPTIONS in hdr {
      GoodIpv4Options(hdr);
      IhlIsFourBits(hdr);
    }
  }

  lemma KeysOfStack(hdr: Headers)
    requires hdr.Keys == Announced(hdr)
    ensures IPV4_OPTIONS in hdr <==> INNER_IPV4 in hdr || (IPV4 in hdr && Ihl(hdr) > 5)
    ensures IPV4_OPTIONS in hdr ==> IPV4 in hdr
    ensures (TCP in hdr <==> TCP_OPTIONS in hdr) && (INNER_TCP in hdr <==> INNER_TCP_OPTIONS in hdr)
    ensures IPV4 in hdr <==> EtherType(hdr, ETHERNET) == ETHERTYPE_IPV4
    ensures StackedBare(hdr) <==> Bare(hdr)
    ensures forall k :: k in hdr ==> k in Stacked(hdr) || k == IPV4_OPTIONS
    ensures forall k :: k in Stacked(hdr) ==> k in hdr
    ensures IPV4_OPTIONS in Stacked(hdr) <==> INNER_IPV4 in hdr
  {
    StackedTogether(hdr);
    hide Stacked, StackedBare, EtherType, Ihl, Transport, InnerTransport;
  }

  /** Headers of the right length are those that conform and announce their options. */
  lemma SizesForward(hdr: Headers, rest: Rest)
    requires hdr.Keys == Announced(hdr) && (IPV4 in hdr ==> Ipv4Checked(hdr)) && |rest.options| == OptionGap(hdr)
    requires (forall k :: k in Stacked(hdr) ==> Good(hdr, k)) && LastOptions(hdr, rest)
    ensures AllConform(hdr) && Ipv4OptionsFit(hdr, rest)
    ensures OptionsFit(hdr, TCP, TCP_OPTIONS) && OptionsFit(hdr, INNER_TCP, INNER_TCP_OPTIONS)
  {
    KeysOfStack(hdr);
    hide Announced, Stacked, StackedBare, Bare, EtherType, Good, Conforms, Ipv4Checked, Ipv4OptionsFit, LastOptions, OptionGap, OptionsFit;
    forall k | k in Stacked(hdr)
      ensures Conforms(k, hdr[k])
    {
      GoodConforms(hdr, k);
    }
    OptionsOfStack(hdr, rest);
    if TCP in hdr {
      GoodTcpOptions(hdr, TCP, TCP_OPTIONS);
    }
    if INNER_TCP in hdr {
      GoodTcpOptions(hdr, INNER_TCP, INNER_TCP_OPTIONS);
    }
    NoTcp(hdr);
  }

  lemma NoTcp(hdr: Headers)
    ensures TCP !in hdr ==> OptionsFit(hdr, TCP, TCP_OPTIONS)
    ensures INNER_TCP !in hdr ==> OptionsFit(hdr, INNER_TCP, INNER_TCP_OPTIONS)
  {
  }

  lemma SizesBackward(hdr: Headers, rest: Rest)
    requires hdr.Keys == Announced(hdr) && (IPV4 in hdr ==> Ipv4Checked(hdr)) && |rest.options| == OptionGap(hdr)
    requires AllConform(hdr) && Ipv4OptionsFit(hdr, rest)
    requires OptionsFit(hdr, TCP, TCP_OPTIONS) && OptionsFit(hdr, INNER_TCP, INNER_TCP_OPTIONS)
    ensures (forall k :: k in Stacked(hdr) ==> Good(hdr, k)) && LastOptions(hdr, rest)
  {
    KeysOfStack(hdr);
    GapIff(hdr, rest);
    assert forall k :: k in hdr ==> Conforms(k, hdr[k]);
    hide Announced, Stacked, StackedBare, Bare, EtherType, Good, Conforms, Ipv4Checked, OptionGap, OptionsFit, AllConform, OptionBits, Ihl;
    forall k | k in Stacked(hdr)
      ensures Good(hdr, k)
    {
      if k == TCP_OPTIONS {
        GoodTcpOptions(hdr, TCP, TCP_OPTIONS);
      } else if k == INNER_TCP_OPTIONS {
        GoodTcpOptions(hdr, INNER_TCP, INNER_TCP_OPTIONS);
      } else if k == IPV4_OPTIONS {
        GoodIpv4Options(hdr);
      } else {
        GoodFixed(hdr, k);
      }
    }
  }

  /** The stacks the parser accepts are the admissible ones. */
  lemma WellFormedIffAdmissible(hdr: Headers, rest: Rest)
    ensures WellFormed(hdr, rest) <==> Admissible(hdr, rest)
  {
    if WellFormed(hdr, rest) {
      WellFormedIsAdmissible(hdr, rest);
    }
    if Admissible(hdr, rest) {
      AdmissibleIsWellFormed(hdr, rest);
    }
  }

  lemma StackParts(hdr: Headers, rest: Rest)
    requires Stack(hdr, rest, 0, Stacked(hdr), StackedBare(hdr))
    ensures forall k :: k in Stacked(hdr) ==> Good(hdr, k) && k in hdr
    ensures forall k: Kind :: k < EMITTED && k in hdr ==> k in Stacked(hdr)
    ensures StackedBare(hdr) ==> |rest.payload| >= 32
  {
    hide Stacked, StackedBare;
  }

  lemma WellFormedIsAdmissible(hdr: Headers, rest: Rest)
    requires WellFormed(hdr, rest)
    ensures Admissible(hdr, rest)
  {
    FrameIff(hdr, rest);
    StackParts(hdr, rest);
    StackedTogether(hdr);
    hide Complete, Stack, Stacked, StackedBare, Good, EtherType, OptionGap, Transport, InnerTransport, Announced, AllConform,
      OptionsFit, Ipv4OptionsFit, Bare;
    assert IPV4 in hdr ==> Ipv4Checked(hdr);
    KeysIff(hdr, rest);
    KeysOfStack(hdr);
    SizesForward(hdr, rest);
  }

  lemma AdmissibleIsWellFormed(hdr: Headers, rest: Rest)
    requires Admissible(hdr, rest)
    ensures WellFormed(hdr, rest)
  {
    GapIff(hdr, rest);
    assert IPV4 in hdr ==> Ipv4Checked(hdr);
    assert |rest.options| == OptionGap(hdr);
    hide Complete, Stacked, StackedBare, Good, EtherType, OptionGap, Transport, InnerTransport, Announced, AllConform,
      OptionsFit, Ipv4OptionsFit, Bare, OptionBits, Ihl, Version, Ipv4Checked;
    KeysIff(hdr, rest);
    KeysOfStack(hdr);
    SizesBackward(hdr, rest);
    FrameIff(hdr, rest);
  }

  // -------------------------------------------------------------------------
  // The parser against the list
  // -------------------------------------------------------------------------

  /** Parsing the packet of a stack, options included, returns the stack if and only if its
      headers are exactly those its fields announce, of the right sizes. */
  lemma RoundTripIffAdmissible(hdr: Headers, rest: Rest)
    ensures var packet := Wire(hdr, rest);
            var c := Parse(packet);
            Admissible(hdr, rest) <==> c.state.Accept? && c.hdr == hdr && RestOf(packet, c) == rest
  {
    hide WellFormed, Admissible, Wire, Parse, RestOf;
    WellFormedIffAdmissible(hdr, rest);
    RoundTripIffWellFormed(hdr, rest);
  }

  /** A packet is accepted with some headers and payload if and only if it is the packet of
      those headers, admissible with some options. */
  lemma AcceptedIffAdmissible(packet: Bits, hdr: Headers, payload: Bits)
    ensures var c := Parse(packet);
            (c.state.Accept? && c.hdr == hdr && c.cursor <= |packet| && packet[c.cursor..] == payload) <==>
            exists options :: Admissible(hdr, Rest(options, payload)) && packet == Wire(hdr, Rest(options, payload))
  {
    hide WellFormed, Admissible, Wire, Parse, RestOf;
    var c := Parse(packet);
    if c.state.Accept? && c.hdr == hdr && c.cursor <= |packet| && packet[c.cursor..] == payload {
      AcceptedIsWellFormed(packet);
      var rest := RestOf(packet, c);
      WellFormedIffAdmissible(hdr, rest);
      assert rest == Rest(rest.options, payload);
    }
    forall options | Admissible(hdr, Rest(options, payload)) && packet == Wire(hdr, Rest(options, payload))
      ensures c.state.Accept? && c.hdr == hdr && c.cursor <= |packet| && packet[c.cursor..] == payload
    {
      WellFormedIffAdmissible(hdr, Rest(options, payload));
      WireThenParse(hdr, Rest(options, payload));
    }
  }

  /** Without options that is the emitted packet: the deparser undoes the parser and is
      undone by it. */
  lemma EmittedIsParsed(hdr: Headers, payload: Bits)
    requires Admissible(hdr, Rest([], payload))
    ensures var packet := Emit(hdr) + payload;
            var c := Parse(packet);
            && packet == Wire(hdr, Rest([], payload))
            && c.state.Accept? && c.hdr == hdr && c.cursor <= |packet| && packet[c.cursor..] == payload
  {
    WireEmits(hdr, 0, Rest([], payload));
    hide Admissible, Emit, Parse;
    AcceptedIffAdmissible(Emit(hdr) + payload, hdr, payload);
  }
}
