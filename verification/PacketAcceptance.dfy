/** Which header stacks come out of the parser: exactly the well-formed ones. */
module PacketAcceptance {
  import opened BitFields
  import opened PacketParser
  import opened PacketRoundTrip
  import opened PacketStacks

  // -------------------------------------------------------------------------
  // The ipv4_options header
  // -------------------------------------------------------------------------

  /** The header is made of the packet's bits in this range. */
  ghost predicate OptionsFrom(packet: Bits, hdr: Headers, from: nat, to: nat) {
    IPV4_OPTIONS in hdr && from <= to <= |packet| && hdr[IPV4_OPTIONS] == Options(packet[from..to])
  }

  /** The ipv4_options header holds the outer options until inner ones replace them. */
  ghost predicate OptionsStand(packet: Bits, c: Config) {
    var gap := OptionGap(c.hdr);
    var inner := INNER_IPV4 in c.hdr && !c.state.ParseInnerIpv4Options?;
    && (c.state.ParseIpv4Options? ==> gap > 0)
    && (IPV4_OPTIONS in c.hdr <==> inner || (gap > 0 && !c.state.ParseIpv4Options?))
    && (IPV4_OPTIONS in c.hdr ==>
          if inner then OptionsFrom(packet, c.hdr, 672 + gap, 672 + 2 * gap) else OptionsFrom(packet, c.hdr, 272, 272 + gap))
  }

  lemma OptionsExtracted(packet: Bits, c: Config, bits: Bits, c': Config)
    requires Extracts(packet, c, IPV4_OPTIONS, bits, c') && Located(c) && Below(c.hdr, NextRank(c.state))
    requires OptionsStand(packet, c)
    ensures OptionsStand(packet, c')
  {
    OuterFieldsStay(c.hdr, IPV4_OPTIONS, Extracted(IPV4_OPTIONS, bits));
    hide Layout, Unpack;
    assert |bits| == OptionGap(c.hdr);
  }

  lemma NoOptionsNext(s: State, hdr: Headers)
    requires !Final(s) && !Looks(s) && Target(s) != IPV4 && Target(s) != IPV4_OPTIONS
    ensures !s.ParseIpv4Options? && !s.ParseInnerIpv4Options? && !Select(s, hdr).ParseIpv4Options?
    ensures Select(s, hdr).ParseInnerIpv4Options? <==> Target(s) == INNER_IPV4
    ensures Target(s) == NextRank(s)
  {
  }

  lemma OthersExtracted(packet: Bits, c: Config, k: Kind, bits: Bits, c': Config)
    requires Extracts(packet, c, k, bits, c') && k != IPV4 && k != IPV4_OPTIONS && Below(c.hdr, NextRank(c.state))
    requires OptionsStand(packet, c)
    ensures OptionsStand(packet, c')
  {
    OuterFieldsStay(c.hdr, k, Extracted(k, bits));
    NoOptionsNext(c.state, c'.hdr);
    OptionsUntouched(packet, c, k, Extracted(k, bits), c');
  }

  lemma OptionsUntouched(packet: Bits, c: Config, k: Kind, h: Header, c': Config)
    requires OptionsStand(packet, c) && k != IPV4_OPTIONS && c'.hdr == c.hdr[k := h]
    requires OptionGap(c'.hdr) == OptionGap(c.hdr) && (k == INNER_IPV4 ==> INNER_IPV4 !in c.hdr)
    requires !c.state.ParseIpv4Options? && !c.state.ParseInnerIpv4Options? && !c'.state.ParseIpv4Options?
    requires c'.state.ParseInnerIpv4Options? <==> k == INNER_IPV4
    ensures OptionsStand(packet, c')
  {
    hide OptionGap;
  }

  lemma Ipv4Extracted(packet: Bits, c: Config, bits: Bits, c': Config)
    requires Extracts(packet, c, IPV4, bits, c') && !c'.state.Reject? && OuterChecked(c'.hdr)
    requires Located(c) && Below(c.hdr, NextRank(c.state)) && OptionsStand(packet, c)
    ensures OptionsStand(packet, c')
  {
    IhlGap(c'.hdr);
    hide Layout, Unpack;
  }

  lemma LookKeepsOptions(packet: Bits, c: Config)
    requires Looks(c.state) && OptionsStand(packet, c) && !Look(packet, c).state.Reject?
    ensures OptionsStand(packet, Look(packet, c))
  {
    LookNext(c.state, c.hdr);
    hide Select, OptionGap, OptionsFrom, Unpack;
  }

  lemma StepKeepsOptions(packet: Bits, c: Config)
    requires !Final(c.state) && Structured(packet, c) && OptionsStand(packet, c) && !Step(packet, c).state.Reject?
    requires OuterChecked(Step(packet, c).hdr)
    ensures OptionsStand(packet, Step(packet, c))
  {
    StructuredParts(packet, c);
    hide Structured, Located, Below, OuterChecked;
    if Looks(c.state) {
      hide OptionsStand;
      LookKeepsOptions(packet, c);
    } else {
      StepExtracts(packet, c);
      var k, bits := Target(c.state), packet[c.cursor..c.cursor + Size(c.state, c.hdr)];
      hide Step, OptionsStand, Extracts;
      if k == IPV4 {
        Ipv4Extracted(packet, c, bits, Step(packet, c));
      } else if k == IPV4_OPTIONS {
        OptionsExtracted(packet, c, bits, Step(packet, c));
      } else {
        OthersExtracted(packet, c, k, bits, Step(packet, c));
      }
    }
  }

  lemma StructuredParts(packet: Bits, c: Config)
    requires Structured(packet, c)
    ensures Located(c) && Below(c.hdr, NextRank(c.state)) && c.cursor <= |packet| && AllConform(c.hdr) && OuterChecked(c.hdr)
  {
  }

  // -------------------------------------------------------------------------
  // Backwards from the accepting state
  // -------------------------------------------------------------------------

  /** Both ranges of options in the packet, as the final stack and its rest show them. */
  ghost predicate OptionsKnown(packet: Bits, hdr: Headers, rest: Rest) {
    var gap := OptionGap(hdr);
    && |rest.options| == gap
    && (IPV4 in hdr ==> 272 + gap <= |packet| && rest.options == packet[272..272 + gap])
    && (INNER_IPV4 in hdr ==> OptionsFrom(packet, hdr, 672 + gap, 672 + 2 * gap))
  }

  /** Seen from a configuration on the way: the final stack `hdr` extends what has been
      extracted, is complete from here on, and stands in the bits ahead. */
  ghost predicate Rebuilds(packet: Bits, c: Config, hdr: Headers, rest: Rest) {
    && c.cursor <= |packet|
    && packet[c.cursor..] == Ahead(c.state, hdr, rest)
    && Agree(c.hdr, hdr, NextRank(c.state))
    && Complete(c.state, hdr, rest)
  }

  lemma AgreeShrinks(part: Headers, k: Kind, h: Header, hdr: Headers, s: State, next: nat)
    requires !Final(s) && !Looks(s) && k == Target(s) && (k != IPV4_OPTIONS ==> k == NextRank(s) < next)
    requires NextRank(s) <= next <= EMITTED && Below(part, NextRank(s)) && Agree(part[k := h], hdr, next)
    ensures Agree(part, hdr, NextRank(s)) && Agree(part[k := h], hdr, After(s))
    ensures After(s) <= next && NoneBetween(hdr, After(s), next)
    ensures k != IPV4_OPTIONS ==> k in hdr && hdr[k] == h
  {
  }

  lemma CompleteStep(s: State, hdr: Headers, rest: Rest)
    requires !Final(s) && !Looks(s) && Holds(s, hdr, rest)
    requires NextRank(s) <= NextRank(Select(s, hdr)) && NoneBetween(hdr, After(s), NextRank(Select(s, hdr)))
    requires Complete(Select(s, hdr), hdr, rest)
    ensures Complete(s, hdr, rest)
  {
  }

  lemma SliceJoins(packet: Bits, from: nat, bits: Bits)
    requires from + |bits| <= |packet| && bits == packet[from..from + |bits|]
    ensures packet[from..] == bits + packet[from + |bits|..]
  {
  }

  /** What the final stack shows of the state before an extraction. */
  lemma ExtractAgrees(packet: Bits, c: Config, k: Kind, bits: Bits, c': Config, hdr: Headers)
    requires Extracts(packet, c, k, bits, c') && Structured(packet, c)
    requires Agree(c'.hdr, hdr, NextRank(c'.state))
    ensures Agree(c.hdr, hdr, NextRank(c.state)) && Select(c.state, hdr) == c'.state
    ensures Size(c.state, hdr) == |bits|
    ensures NextRank(c.state) <= NextRank(c'.state) && NoneBetween(hdr, After(c.state), NextRank(c'.state))
    ensures k != IPV4_OPTIONS ==> k in hdr && hdr[k] == Extracted(k, bits)
  {
    hide Structured, Located, Layout, Encode, Extracted, Conforms, Select, Size, Agree, Below, NoneBetween, NextRank, After, AllConform,
      OuterChecked, Width;
    var s := c.state;
    StructuredParts(packet, c);
    SelectAdvances(s, c'.hdr);
    RankBound(c'.state);
    AgreeShrinks(c.hdr, k, Extracted(k, bits), hdr, s, NextRank(c'.state));
    SelectAgrees(s, c'.hdr, hdr, After(s));
    SizeAgrees(s, c.hdr, hdr);
  }

  lemma GapAgrees(part: Headers, hdr: Headers, rank: nat)
    requires Agree(part, hdr, rank) && rank > IPV4
    ensures OptionGap(part) == OptionGap(hdr) && (IPV4 in part <==> IPV4 in hdr)
    ensures rank > INNER_IPV4 ==> (INNER_IPV4 in part <==> INNER_IPV4 in hdr)
  {
  }

  /** The options extracted are those the final stack or its rest knows. */
  lemma OptionsTaken(packet: Bits, c: Config, bits: Bits, c': Config, hdr: Headers, rest: Rest)
    requires Extracts(packet, c, IPV4_OPTIONS, bits, c') && Located(c) && Agree(c.hdr, hdr, NextRank(c.state))
    requires OptionsKnown(packet, hdr, rest) && Size(c.state, hdr) == |bits|
    ensures Holds(c.state, hdr, rest) && Taken(c.state, hdr, rest) == bits
  {
    GapAgrees(c.hdr, hdr, NextRank(c.state));
    hide Layout, Unpack, Agree, Select;
    assert |bits| == OptionGap(c.hdr) == OptionGap(hdr);
    hide OptionGap, Ipv4OptionBits;
  }

  lemma HeaderTaken(packet: Bits, c: Config, k: Kind, bits: Bits, c': Config, hdr: Headers, rest: Rest)
    requires Extracts(packet, c, k, bits, c') && k != IPV4_OPTIONS && k in hdr && hdr[k] == Extracted(k, bits)
    requires Size(c.state, hdr) == |bits|
    ensures Holds(c.state, hdr, rest) && Taken(c.state, hdr, rest) == bits
  {
    hide Layout, Unpack, Select, Size;
    ExtractedConforms(k, bits);
  }

  lemma ExtractTakes(packet: Bits, c: Config, k: Kind, bits: Bits, c': Config, hdr: Headers, rest: Rest)
    requires Extracts(packet, c, k, bits, c') && Structured(packet, c)
    requires Agree(c'.hdr, hdr, NextRank(c'.state)) && OptionsKnown(packet, hdr, rest)
    ensures Agree(c.hdr, hdr, NextRank(c.state)) && Select(c.state, hdr) == c'.state
    ensures NextRank(c.state) <= NextRank(c'.state) && NoneBetween(hdr, After(c.state), NextRank(c'.state))
    ensures Holds(c.state, hdr, rest) && Taken(c.state, hdr, rest) == bits
  {
    ExtractAgrees(packet, c, k, bits, c', hdr);
    StructuredParts(packet, c);
    hide Structured, Located, Agree, OptionsKnown, Holds, Taken, NoneBetween, Select, Size, NextRank, After;
    if k == IPV4_OPTIONS {
      OptionsTaken(packet, c, bits, c', hdr, rest);
    } else {
      HeaderTaken(packet, c, k, bits, c', hdr, rest);
    }
  }

  lemma ExtractRebuilds(packet: Bits, c: Config, k: Kind, bits: Bits, c': Config, hdr: Headers, rest: Rest)
    requires Extracts(packet, c, k, bits, c') && Structured(packet, c)
    requires Rebuilds(packet, c', hdr, rest) && OptionsKnown(packet, hdr, rest)
    ensures Rebuilds(packet, c, hdr, rest)
  {
    hide Structured, Layout, Located, Encode, Extracted, Ahead, Complete, Conforms, Select, Size, NextRank, Agree, NoneBetween, After,
      OptionGap, OptionsFrom, Holds, Taken;
    ExtractTakes(packet, c, k, bits, c', hdr, rest);
    CompleteStep(c.state, hdr, rest);
    TakenFirst(c.state, hdr, rest);
    SliceJoins(packet, c.cursor, bits);
  }

  lemma AgreeNarrows(part: Headers, hdr: Headers, rank: nat, next: nat)
    requires rank <= next <= EMITTED && Below(part, rank) && Agree(part, hdr, next)
    ensures Agree(part, hdr, rank) && NoneBetween(hdr, rank, next)
  {
  }

  lemma CompleteLooked(s: State, hdr: Headers, rest: Rest)
    requires Looks(s) && |WireFrom(hdr, NextRank(s), rest)| >= 32
    requires NextRank(s) <= NextRank(Select(s, hdr)) && NoneBetween(hdr, NextRank(s), NextRank(Select(s, hdr)))
    requires Complete(Select(s, hdr), hdr, rest)
    ensures Complete(s, hdr, rest)
  {
  }

  lemma LookRebuilds(packet: Bits, c: Config, hdr: Headers, rest: Rest)
    requires Looks(c.state) && Structured(packet, c) && !Look(packet, c).state.Reject?
    requires Rebuilds(packet, Look(packet, c), hdr, rest)
    ensures Rebuilds(packet, c, hdr, rest)
  {
    StructuredParts(packet, c);
    LookNext(c.state, c.hdr);
    hide Structured, Located, WireFrom, Complete, Select, NextRank, AllConform, Agree, Below, NoneBetween, Unpack, OuterChecked;
    var s, next := c.state, Look(packet, c).state;
    SelectAdvances(s, c.hdr);
    RankBound(next);
    AgreeNarrows(c.hdr, hdr, NextRank(s), NextRank(next));
    SelectAgrees(s, c.hdr, hdr, NextRank(s));
    WireSkips(hdr, NextRank(s), NextRank(next), rest);
    assert |packet[c.cursor..]| >= 32;
    CompleteLooked(s, hdr, rest);
  }

  /** What an accepted packet holds besides its stack. */
  ghost function RestOf(packet: Bits, c: Config): Rest {
    var gap := OptionGap(c.hdr);
    Rest(
      if IPV4 in c.hdr && 272 + gap <= |packet| then packet[272..272 + gap] else [],
      if c.cursor <= |packet| then packet[c.cursor..] else [])
  }

  lemma AcceptedPlaces(packet: Bits, c: Config)
    requires c.state.Accept? && Structured(packet, c)
    ensures IPV4 in c.hdr ==> 272 + OptionGap(c.hdr) <= |packet|
    ensures IPV4 !in c.hdr ==> OptionGap(c.hdr) == 0
  {
    AcceptedShape(packet, c);
    hide Structured, Gap, OptionGap;
  }

  lemma AcceptedKnowsOptions(packet: Bits, c: Config)
    requires c.state.Accept? && Structured(packet, c) && OptionsStand(packet, c)
    ensures OptionsKnown(packet, c.hdr, RestOf(packet, c))
  {
    AcceptedPlaces(packet, c);
    hide Structured, OptionGap, OptionsFrom;
  }

  lemma AcceptedStoresOptions(packet: Bits, c: Config)
    requires c.state.Accept? && Structured(packet, c) && OptionsStand(packet, c)
    ensures OptionsStored(c.hdr, RestOf(packet, c))
  {
    AcceptedPlaces(packet, c);
    hide Structured, OptionGap;
    var gap, rest := OptionGap(c.hdr), RestOf(packet, c);
    assert |rest.options| == gap && (rest.options != [] <==> gap > 0);
    if INNER_IPV4 !in c.hdr && gap > 0 {
      assert OptionsFrom(packet, c.hdr, 272, 272 + gap) && IPV4 in c.hdr;
    }
    hide RestOf, OptionsFrom;
  }

  lemma AcceptedOptions(packet: Bits, c: Config)
    requires c.state.Accept? && Structured(packet, c) && OptionsStand(packet, c)
    ensures OptionsKnown(packet, c.hdr, RestOf(packet, c)) && OptionsStored(c.hdr, RestOf(packet, c))
  {
    hide *;
    AcceptedKnowsOptions(packet, c);
    AcceptedStoresOptions(packet, c);
  }

  lemma AcceptedRebuilds(packet: Bits, c: Config)
    requires c.state.Accept? && c.cursor <= |packet|
    ensures Rebuilds(packet, c, c.hdr, RestOf(packet, c))
  {
    hide OptionGap;
    assert [] + packet[c.cursor..] == packet[c.cursor..];
  }

  /** Every configuration of an accepting run. */
  lemma {:induction false} FinishRebuilds(packet: Bits, c: Config)
    requires Sound(packet, c) && OptionsStand(packet, c) && Finish(packet, c).state.Accept?
    ensures var r := Finish(packet, c);
            && Structured(packet, r) && OptionsStand(packet, r)
            && OptionsStored(r.hdr, RestOf(packet, r)) && Rebuilds(packet, c, r.hdr, RestOf(packet, r))
    decreases Remaining(c.state)
  {
    var r := Finish(packet, c);
    if Final(c.state) {
      AcceptedOptions(packet, c);
      AcceptedRebuilds(packet, c);
    } else {
      var c' := Step(packet, c);
      NotRejected(packet, c);
      StepSound(packet, c);
      assert Structured(packet, c) && Structured(packet, c');
      StructuredParts(packet, c');
      hide Structured, Faithful, Rebuilds, OptionsStand, OptionsStored, RestOf, Located, Below;
      StepKeepsOptions(packet, c);
      FinishRebuilds(packet, c');
      hide Step, OuterChecked;
      AcceptedOptions(packet, r);
      if Looks(c.state) {
        assert c' == Look(packet, c) by { LookIsStep(packet, c); }
        LookRebuilds(packet, c, r.hdr, RestOf(packet, r));
      } else {
        StepExtracts(packet, c);
        var k, bits := Target(c.state), packet[c.cursor..c.cursor + Size(c.state, c.hdr)];
        ExtractRebuilds(packet, c, k, bits, c', r.hdr, RestOf(packet, r));
      }
    }
  }

  lemma LookIsStep(packet: Bits, c: Config)
    requires Looks(c.state)
    ensures Step(packet, c) == Look(packet, c)
  {
  }

  lemma NotRejected(packet: Bits, c: Config)
    requires !Final(c.state) && Finish(packet, c).state.Accept?
    ensures !Step(packet, c).state.Reject?
  {
  }

  // -------------------------------------------------------------------------
  // Exactly the well-formed stacks
  // -------------------------------------------------------------------------

  /** What an accepting run extracts is well formed, and the packet is its stack with the
      options behind the IPv4 headers, in front of what follows. */
  lemma AcceptedIsWellFormed(packet: Bits)
    requires Parse(packet).state.Accept?
    ensures var c := Parse(packet);
            && WellFormed(c.hdr, RestOf(packet, c)) && packet == Wire(c.hdr, RestOf(packet, c))
            && c.cursor <= |packet| && RestOf(packet, c).payload == packet[c.cursor..]
  {
    StartSound(packet);
    assert OptionsStand(packet, START);
    FinishRebuilds(packet, START);
    var c := Parse(packet);
    hide Finish, Sound, Complete, OptionsStand, OptionsStored, WireFrom;
    assert packet[0..] == packet;
    assert [] + Wire(c.hdr, RestOf(packet, c)) == Wire(c.hdr, RestOf(packet, c));
  }

  lemma SameSecondPart(one: Bits, header: Bits, a: Bits, b: Bits, x: Bits, y: Bits)
    requires |a| == |b| && one + ((header + a) + x) == one + ((header + b) + y)
    ensures a == b
  {
    var n := |one| + |header|;
    assert a == (one + ((header + a) + x))[n..n + |a|];
    assert b == (one + ((header + b) + y))[n..n + |b|];
  }

  /** The packet of a stack shows its outer options. */
  lemma WireShowsOptions(hdr: Headers, a: Rest, b: Rest)
    requires |a.options| == |b.options| == OptionGap(hdr) && Wire(hdr, a) == Wire(hdr, b)
    ensures a.options == b.options
  {
    if IPV4 in hdr {
      WireUnfolds(hdr, 0, a);
      WireUnfolds(hdr, 1, a);
      WireUnfolds(hdr, 0, b);
      WireUnfolds(hdr, 1, b);
      assert WireOne(hdr, 0, a) == WireOne(hdr, 0, b);
      assert forall r :: WireOne(hdr, IPV4, r) == Encode(IPV4, hdr[IPV4]) + r.options;
      hide WireOne, WireFrom, Encode, OptionGap;
      SameSecondPart(WireOne(hdr, 0, a), Encode(IPV4, hdr[IPV4]), a.options, b.options, WireFrom(hdr, 2, a), WireFrom(hdr, 2, b));
    }
  }

  lemma StoredLength(hdr: Headers, rest: Rest)
    requires WellFormed(hdr, rest)
    ensures |rest.options| == OptionGap(hdr)
  {
  }

  /** Parsing the packet of a stack returns the stack if and only if it is well formed. */
  lemma RoundTripIffWellFormed(hdr: Headers, rest: Rest)
    ensures var packet := Wire(hdr, rest);
            var c := Parse(packet);
            WellFormed(hdr, rest) <==> c.state.Accept? && c.hdr == hdr && RestOf(packet, c) == rest
  {
    hide WellFormed, Wire, RestOf;
    var packet := Wire(hdr, rest);
    if WellFormed(hdr, rest) {
      WireThenParse(hdr, rest);
      AcceptedIsWellFormed(packet);
      StoredLength(hdr, rest);
      StoredLength(hdr, RestOf(packet, Parse(packet)));
      WireShowsOptions(hdr, rest, RestOf(packet, Parse(packet)));
    } else if Parse(packet).state.Accept? && Parse(packet).hdr == hdr && RestOf(packet, Parse(packet)) == rest {
      AcceptedIsWellFormed(packet);
    }
  }
}
