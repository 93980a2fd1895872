/** Which packets the parser rejects with which error. */
module PacketErrors {
  import opened BitFields
  import opened PacketParser
  import opened PacketRoundTrip
  import opened PacketPlaces
  import opened MovingAverage

  // -------------------------------------------------------------------------
  // Rejected IPv4 headers
  // -------------------------------------------------------------------------

  /** A complete IPv4 header behind an Ethernet header that announces it. */
  ghost predicate HasIpv4(packet: Bits) {
    |packet| >= 272 && BitsAt(packet, 96, 16) == 0x0800
  }

  predicate IsIpv4Error(s: State) {
    s == Reject(IPv4IncorrectVersion) || s == Reject(IPv4HeaderTooShort)
  }

  /** Only parse_ipv4 raises the two errors. */
  lemma {:induction false} NoIpv4ErrorLater(packet: Bits, c: Config)
    requires !c.state.ParseEthernet? && !c.state.ParseIpv4? && !IsIpv4Error(c.state)
    ensures !IsIpv4Error(Finish(packet, c).state)
    decreases Remaining(c.state)
  {
    if !Final(c.state) {
      LaterSelect(packet, c);
      hide Step;
      NoIpv4ErrorLater(packet, Step(packet, c));
    }
  }

  lemma LaterSelect(packet: Bits, c: Config)
    requires !Final(c.state) && !c.state.ParseEthernet? && !c.state.ParseIpv4?
    ensures var s := Step(packet, c).state; !s.ParseEthernet? && !s.ParseIpv4? && !IsIpv4Error(s)
  {
    hide Unpack, Layout, Extracted, Size, Noted;
  }

  lemma FirstStep(packet: Bits)
    ensures var c := Step(packet, START);
            if |packet| >= 112 then
              c.cursor == 112 && ReadAt(packet, c.hdr, ETHERNET, 0) && c.state == Select(ParseEthernet, c.hdr)
            else c.state == Reject(PacketTooShort)
  {
    HeaderWidths(ETHERNET);
    hide Layout, Unpack, Select, Noted, Width;
  }

  lemma EthernetStep(packet: Bits)
    ensures var c := Step(packet, START);
            && !IsIpv4Error(c.state) && !c.state.ParseEthernet?
            && (c.state.ParseIpv4? ==> |packet| >= 112 && c.cursor == 112 && BitsAt(packet, 96, 16) == 0x0800)
            && (|packet| >= 112 && BitsAt(packet, 96, 16) == 0x0800 ==> c.state.ParseIpv4?)
  {
    FirstStep(packet);
    hide Step, Layout, BitsAt, EtherType, ReadAt;
    if |packet| >= 112 {
      EtherTypeIsRead(packet, Step(packet, START).hdr, ETHERNET, 0);
    }
  }

  lemma Ipv4Step(packet: Bits, c: Config)
    requires c.state.ParseIpv4? && c.cursor == 112 && |packet| >= 112
    ensures var next, version, ihl := Step(packet, c).state, BitsAt(packet, 112, 4), BitsAt(packet, 116, 4);
            && !next.ParseEthernet? && !next.ParseIpv4?
            && (next == Reject(IPv4IncorrectVersion) <==> |packet| >= 272 && version != 4)
            && (next == Reject(IPv4HeaderTooShort) <==> |packet| >= 272 && version == 4 && ihl < 5)
  {
    HeaderWidths(IPV4);
    if |packet| >= 272 {
      assert ReadAt(packet, Step(packet, c).hdr, IPV4, 112);
      Ipv4IsRead(packet, Step(packet, c).hdr, IPV4, 112);
    }
    hide Layout, Unpack, BitsAt;
  }

  /** A packet is rejected for its IP version, or for its IPv4 header length, exactly if its
      bits say so: a header of five to fifteen words never is. */
  lemma Ipv4ErrorsIff(packet: Bits)
    ensures var s, version, ihl := Parse(packet).state, BitsAt(packet, 112, 4), BitsAt(packet, 116, 4);
            && (s == Reject(IPv4IncorrectVersion) <==> HasIpv4(packet) && version != 4)
            && (s == Reject(IPv4HeaderTooShort) <==> HasIpv4(packet) && version == 4 && ihl < 5)
  {
    var c := Step(packet, START);
    EthernetStep(packet);
    assert Parse(packet) == Finish(packet, c);
    hide Step, BitsAt;
    if c.state.ParseIpv4? {
      Ipv4Step(packet, c);
      var next := Step(packet, c);
      assert Finish(packet, c) == Finish(packet, next);
      if !IsIpv4Error(next.state) {
        NoIpv4ErrorLater(packet, next);
      }
    } else {
      NoIpv4ErrorLater(packet, c);
    }
  }

  // -------------------------------------------------------------------------
  // Rejected options and short packets
  // -------------------------------------------------------------------------

  /** A TCP header, outer or inner, of less than five words has been extracted. */
  ghost predicate HasShortTcp(hdr: Headers) {
    || (TCP in hdr && DataOffset(hdr, TCP) < 5)
    || (INNER_TCP in hdr && DataOffset(hdr, INNER_TCP) < 5)
  }

  /** On the way a TCP header of less than five words only waits for its options. */
  lemma ShortTcpFails(packet: Bits, c: Config, tcp: Kind, options: Kind)
    requires (tcp == TCP && options == TCP_OPTIONS) || (tcp == INNER_TCP && options == INNER_TCP_OPTIONS)
    requires !c.state.Reject? && AllConform(c.hdr) && TcpChecked(c, tcp, options)
    ensures tcp in c.hdr && DataOffset(c.hdr, tcp) < 5 ==>
              !Final(c.state) && !Looks(c.state) && Target(c.state) == options && Size(c.state, c.hdr) > MAX_OPTIONS
  {
    if tcp in c.hdr && DataOffset(c.hdr, tcp) < 5 {
      assert TcpOptionBits(c.hdr, tcp) > MAX_OPTIONS;
    }
    hide Conforms, AllConform, Ipv4OptionBits, TcpOptionBits;
  }

  /** Every other size fits the header. */
  lemma SizeFits(packet: Bits, c: Config)
    requires Structured(packet, c) && !Final(c.state) && !Looks(c.state) && IsVariable(Target(c.state)) && !HasShortTcp(c.hdr)
    ensures Size(c.state, c.hdr) <= MAX_OPTIONS
  {
    OptionStates(c);
    if Target(c.state) == IPV4_OPTIONS {
      IhlGap(c.hdr);
    } else if Target(c.state) == TCP_OPTIONS {
      OffsetIsFourBits(c.hdr, TCP);
    } else {
      OffsetIsFourBits(c.hdr, INNER_TCP);
    }
  }

  lemma OptionStates(c: Config)
    requires Located(c) && !Final(c.state) && !Looks(c.state)
    ensures Target(c.state) == IPV4_OPTIONS ==> IPV4 in c.hdr
    ensures Target(c.state) == TCP_OPTIONS ==> TCP in c.hdr
    ensures Target(c.state) == INNER_TCP_OPTIONS ==> INNER_TCP in c.hdr
  {
  }

  lemma OffsetIsFourBits(hdr: Headers, k: Kind)
    requires (k == TCP || k == INNER_TCP) && k in hdr && Conforms(k, hdr[k]) && DataOffset(hdr, k) >= 5
    ensures TcpOptionBits(hdr, k) <= MAX_OPTIONS
  {
    assert hdr[k].values[4] < Pow2(4) == 16;
  }

  lemma NoShortTcp(packet: Bits, c: Config)
    requires Structured(packet, c) && !c.state.Reject?
    ensures HasShortTcp(c.hdr) ==>
              !Final(c.state) && !Looks(c.state) && IsVariable(Target(c.state)) && Size(c.state, c.hdr) > MAX_OPTIONS
  {
    ShortTcpFails(packet, c, TCP, TCP_OPTIONS);
    ShortTcpFails(packet, c, INNER_TCP, INNER_TCP_OPTIONS);
    hide Located, AllConform, TcpChecked, DataOffset, Size;
  }

  /** How a state fails. */
  lemma FailureOf(packet: Bits, c: Config)
    requires !Final(c.state) && Step(packet, c).state.Reject?
    ensures var r := Step(packet, c);
            if Looks(c.state) then r.hdr == c.hdr && r.state == Reject(PacketTooShort)
            else if IsVariable(Target(c.state)) && Size(c.state, c.hdr) > MAX_OPTIONS then
              r.hdr == c.hdr && r.state == Reject(HeaderTooShort)
            else
              || (r.hdr == c.hdr && r.state == Reject(PacketTooShort))
              || (c.state.ParseIpv4? && IsIpv4Error(r.state) && r.hdr.Keys == c.hdr.Keys + {IPV4})
  {
    hide Unpack, Layout, Extracted, Size, Noted;
  }

  lemma StepFails(packet: Bits, c: Config)
    requires Structured(packet, c) && !Final(c.state) && Step(packet, c).state.Reject?
    ensures Step(packet, c).state == Reject(HeaderTooShort) <==> HasShortTcp(Step(packet, c).hdr)
  {
    FailureOf(packet, c);
    NoShortTcp(packet, c);
    if !Looks(c.state) && IsVariable(Target(c.state)) && !HasShortTcp(c.hdr) {
      SizeFits(packet, c);
    }
    assert Below(c.hdr, NextRank(c.state));
    hide Structured, Step, Size, DataOffset, Located;
    if c.state.ParseIpv4? && IsIpv4Error(Step(packet, c).state) {
      assert TCP !in Step(packet, c).hdr && INNER_TCP !in Step(packet, c).hdr;
    }
  }

  lemma {:induction false} FinishFails(packet: Bits, c: Config)
    requires Sound(packet, c) && !c.state.Reject?
    ensures var r := Finish(packet, c); r.state == Reject(HeaderTooShort) <==> HasShortTcp(r.hdr)
    decreases Remaining(c.state)
  {
    assert Structured(packet, c);
    NoShortTcp(packet, c);
    if !Final(c.state) {
      StepSound(packet, c);
      hide Structured, HasShortTcp, Sound, Step, Size;
      if Step(packet, c).state.Reject? {
        StepFails(packet, c);
      } else {
        FinishFails(packet, Step(packet, c));
      }
    }
  }

  /** The error of a rejected packet: a wrong version, an IPv4 header below five words, a TCP
      header below five words, whose option length wraps, and otherwise a packet that ends
      too early. */
  lemma RejectedFor(packet: Bits)
    requires Parse(packet).state.Reject?
    ensures var c, version, ihl := Parse(packet), BitsAt(packet, 112, 4), BitsAt(packet, 116, 4);
            c.state.error ==
              if HasIpv4(packet) && version != 4 then IPv4IncorrectVersion
              else if HasIpv4(packet) && ihl < 5 then IPv4HeaderTooShort
              else if HasShortTcp(c.hdr) then HeaderTooShort
              else PacketTooShort
  {
    hide BitsAt, HasIpv4, HasShortTcp, Finish, Sound;
    Ipv4ErrorsIff(packet);
    StartSound(packet);
    FinishFails(packet, START);
  }
}
