/** The other direction of the round trip: which header stacks survive being
    emitted and parsed again. */
module PacketStacks {
  import opened BitFields
  import opened PacketParser
  import opened PacketRoundTrip

  /** What a packet holds besides the headers that are emitted: the options of the outer
      IPv4 header, and what follows all headers. */
  datatype Rest = Rest(options: Bits, payload: Bits)

  function InnerOptions(hdr: Headers): Bits {
    if IPV4_OPTIONS in hdr && hdr[IPV4_OPTIONS].Options? then hdr[IPV4_OPTIONS].bits else []
  }

  /** A header with the option bits behind it. */
  function WireOne(hdr: Headers, k: Kind, rest: Rest): Bits {
    if k !in hdr then []
    else if k == IPV4 then Encode(k, hdr[k]) + rest.options
    else if k == INNER_IPV4 then Encode(k, hdr[k]) + InnerOptions(hdr)
    else Encode(k, hdr[k])
  }

  /** The packet from a rank on: headers in the order they are emitted, options behind their
      IPv4 header, the payload last. */
  function WireFrom(hdr: Headers, rank: nat, rest: Rest): Bits
    decreases EMITTED - rank
  {
    if rank >= EMITTED then rest.payload else WireOne(hdr, rank, rest) + WireFrom(hdr, rank + 1, rest)
  }

  function Wire(hdr: Headers, rest: Rest): Bits {
    WireFrom(hdr, 0, rest)
  }

  /** Without options that is the emitted packet. */
  lemma {:induction false} WireEmits(hdr: Headers, rank: nat, rest: Rest)
    requires rest.options == [] && (INNER_IPV4 in hdr ==> InnerOptions(hdr) == [])
    ensures WireFrom(hdr, rank, rest) == EmitFrom(hdr, rank) + rest.payload
    decreases EMITTED - rank
  {
    if rank < EMITTED {
      WireEmits(hdr, rank + 1, rest);
      EmitUnfolds(hdr, rank);
      assert WireOne(hdr, rank, rest) == EmitOne(hdr, rank);
      hide EmitOne, WireOne;
      Reassociates(EmitFrom(hdr, rank), EmitOne(hdr, rank), EmitFrom(hdr, rank + 1), rest.payload);
    }
  }

  lemma Reassociates(whole: Bits, one: Bits, more: Bits, payload: Bits)
    requires whole == one + more
    ensures whole + payload == one + (more + payload)
  {
  }

  lemma {:induction false} WireSkips(hdr: Headers, lo: nat, hi: nat, rest: Rest)
    requires lo <= hi <= EMITTED && NoneBetween(hdr, lo, hi)
    ensures WireFrom(hdr, lo, rest) == WireFrom(hdr, hi, rest)
    decreases hi - lo
  {
    if lo < hi {
      WireSkips(hdr, lo + 1, hi, rest);
    }
  }

  /** Option bits a state finds at the cursor. */
  function OptionsAt(s: State, hdr: Headers, rest: Rest): Bits {
    if s.ParseIpv4Options? then rest.options else if s.ParseInnerIpv4Options? then InnerOptions(hdr) else []
  }

  /** The bits a state finds ahead. */
  function Ahead(s: State, hdr: Headers, rest: Rest): Bits {
    OptionsAt(s, hdr, rest) + WireFrom(hdr, NextRank(s), rest)
  }

  /** What a state extracts: outer options may be overwritten by inner ones later. */
  ghost predicate Holds(s: State, hdr: Headers, rest: Rest)
    requires !Final(s) && !Looks(s)
  {
    if s.ParseIpv4Options? then |rest.options| == Size(s, hdr) <= MAX_OPTIONS
    else
      && Target(s) in hdr && Conforms(Target(s), hdr[Target(s)])
      && |Encode(Target(s), hdr[Target(s)])| == Size(s, hdr)
  }

  /** The stack holds exactly the headers the parser extracts from state `s` on when
      it follows the fields of the stack itself, and enough bits for every
      lookahead. */
  ghost predicate Complete(s: State, hdr: Headers, rest: Rest)
    decreases Remaining(s)
  {
    if Final(s) then s.Accept? else
    var next := Select(s, hdr);
    && NextRank(s) <= NextRank(next)
    && (if Looks(s) then
          |WireFrom(hdr, NextRank(s), rest)| >= 32 && NoneBetween(hdr, NextRank(s), NextRank(next))
        else
          Holds(s, hdr, rest) && NoneBetween(hdr, After(s), NextRank(next)))
    && Complete(next, hdr, rest)
  }

  function After(s: State): nat
    requires !Final(s) && !Looks(s)
  {
    if Target(s) == IPV4_OPTIONS then NextRank(s) else Target(s) + 1
  }

  /** The ipv4_options header holds the last options extracted, if any were. */
  ghost predicate OptionsStored(hdr: Headers, rest: Rest) {
    && |rest.options| == OptionGap(hdr)
    && (IPV4_OPTIONS in hdr <==> INNER_IPV4 in hdr || rest.options != [])
    && (INNER_IPV4 !in hdr && rest.options != [] ==> hdr[IPV4_OPTIONS] == Options(rest.options))
  }

  /** A header stack as the parser would accept it. */
  ghost predicate WellFormed(hdr: Headers, rest: Rest) {
    Complete(ParseEthernet, hdr, rest) && OptionsStored(hdr, rest)
  }

  ghost predicate Agree(part: Headers, hdr: Headers, rank: nat) {
    forall k: Kind :: k < rank && k != IPV4_OPTIONS ==> (k in part <==> k in hdr) && (k in part ==> part[k] == hdr[k])
  }

  lemma FieldAgrees(part: Headers, hdr: Headers, rank: nat, k: Kind, i: nat)
    requires Agree(part, hdr, rank) && k != IPV4_OPTIONS
    ensures k < rank ==> Field(part, k, i) == Field(hdr, k, i)
  {
  }

  lemma SelectAgrees(s: State, part: Headers, hdr: Headers, rank: nat)
    requires !Final(s) && Agree(part, hdr, rank)
    requires rank == if Looks(s) then NextRank(s) else After(s)
    ensures Select(s, part) == Select(s, hdr)
  {
    FieldAgrees(part, hdr, rank, ETHERNET, 2);
    FieldAgrees(part, hdr, rank, IPV4, 0);
    FieldAgrees(part, hdr, rank, IPV4, 1);
    FieldAgrees(part, hdr, rank, IPV4, 8);
    FieldAgrees(part, hdr, rank, UDP, 1);
    FieldAgrees(part, hdr, rank, INNER_ETHERNET, 2);
    FieldAgrees(part, hdr, rank, INNER_IPV4, 8);
  }

  lemma SizeAgrees(s: State, part: Headers, hdr: Headers)
    requires !Final(s) && !Looks(s) && Agree(part, hdr, NextRank(s))
    ensures Size(s, part) == Size(s, hdr)
  {
  }

  predicate BeforeOptions(s: State) {
    s.ParseEthernet? || s.ParseIpv4? || s.ParseIpv4Options?
  }

  /** The ipv4_options header so far. */
  ghost predicate OptionsAgree(c: Config, hdr: Headers, rest: Rest) {
    var inner := INNER_IPV4 in c.hdr && !c.state.ParseInnerIpv4Options?;
    && (IPV4_OPTIONS in c.hdr <==> inner || (!BeforeOptions(c.state) && rest.options != []))
    && (IPV4_OPTIONS in c.hdr ==>
          if inner then IPV4_OPTIONS in hdr && c.hdr[IPV4_OPTIONS] == hdr[IPV4_OPTIONS]
          else c.hdr[IPV4_OPTIONS] == Options(rest.options))
  }

  /** What has been extracted is the stack so far, and what lies ahead is the rest of
      the stack and the payload. */
  ghost predicate Tracks(packet: Bits, c: Config, hdr: Headers, rest: Rest) {
    && c.cursor <= |packet|
    && packet[c.cursor..] == Ahead(c.state, hdr, rest)
    && Agree(c.hdr, hdr, NextRank(c.state)) && Below(c.hdr, NextRank(c.state))
    && OptionsAgree(c, hdr, rest)
    && Complete(c.state, hdr, rest)
    && |rest.options| == OptionGap(hdr)
    && (c.state.ParseIpv4Options? ==> rest.options != [])
    && (c.state.ParseInnerIpv4Options? ==> INNER_IPV4 in c.hdr)
  }

  lemma StoredReturns(k: Kind, h: Header)
    requires Conforms(k, h)
    ensures IsVariable(k) || |Encode(k, h)| == Width(Layout(k))
    ensures Extracted(k, Encode(k, h)) == h
  {
    if !IsVariable(k) {
      UnpackPack(Layout(k), h.values);
    }
  }

  lemma SplitAhead(packet: Bits, cursor: nat, one: Bits, more: Bits)
    requires cursor <= |packet| && packet[cursor..] == one + more
    ensures cursor + |one| <= |packet|
    ensures packet[cursor..cursor + |one|] == one && packet[cursor + |one|..] == more
  {
    assert packet[cursor..][..|one|] == one && packet[cursor..][|one|..] == more;
  }

  lemma WireUnfolds(hdr: Headers, rank: nat, rest: Rest)
    requires rank < EMITTED
    ensures WireFrom(hdr, rank, rest) == WireOne(hdr, rank, rest) + WireFrom(hdr, rank + 1, rest)
  {
  }

  lemma CompleteHere(s: State, hdr: Headers, rest: Rest)
    requires Complete(s, hdr, rest) && !Final(s) && !Looks(s)
    ensures var k, next := Target(s), Select(s, hdr);
            && Holds(s, hdr, rest) && Complete(next, hdr, rest)
            && NoneBetween(hdr, After(s), NextRank(next)) && After(s) <= NextRank(next)
            && (k != IPV4_OPTIONS ==> k == NextRank(s) < NextRank(next))
  {
    SelectAdvances(s, hdr);
  }

  /** The bits a state extracts when it follows the stack. */
  function Taken(s: State, hdr: Headers, rest: Rest): Bits
    requires !Final(s) && !Looks(s)
  {
    if Target(s) == IPV4_OPTIONS then OptionsAt(s, hdr, rest)
    else if Target(s) in hdr then Encode(Target(s), hdr[Target(s)])
    else []
  }

  lemma OptionsAhead(s: State, hdr: Headers, rest: Rest)
    requires s.ParseIpv4Options? || s.ParseInnerIpv4Options?
    requires NoneBetween(hdr, NextRank(s), NextRank(Select(s, hdr)))
    ensures Ahead(s, hdr, rest) == Taken(s, hdr, rest) + Ahead(Select(s, hdr), hdr, rest)
  {
    hide WireFrom;
    WireSkips(hdr, NextRank(s), NextRank(Select(s, hdr)), rest);
  }

  /** Behind an IPv4 header stand its options, which the next state finds. */
  lemma OptionsFollow(s: State, hdr: Headers, rest: Rest)
    requires !Final(s) && !Looks(s) && Target(s) != IPV4_OPTIONS && Target(s) in hdr && !Select(s, hdr).Reject?
    requires |rest.options| == OptionGap(hdr)
    ensures WireOne(hdr, Target(s), rest) == Taken(s, hdr, rest) + OptionsAt(Select(s, hdr), hdr, rest)
  {
    hide Encode, Ipv4OptionBits;
    NoGap(hdr);
  }

  lemma NoGap(hdr: Headers)
    ensures IPV4 in hdr && Ihl(hdr) == 5 ==> OptionGap(hdr) == 0
  {
  }

  /** What a state extracts comes first in what lies ahead. */
  lemma TakenFirst(s: State, hdr: Headers, rest: Rest)
    requires Complete(s, hdr, rest) && !Final(s) && !Looks(s) && |rest.options| == OptionGap(hdr)
    ensures Ahead(s, hdr, rest) == Taken(s, hdr, rest) + Ahead(Select(s, hdr), hdr, rest)
  {
    hide Layout, Encode, WireFrom, NoneBetween, Conforms, Complete, Holds;
    CompleteHere(s, hdr, rest);
    var k, next := Target(s), NextRank(Select(s, hdr));
    if k == IPV4_OPTIONS {
      OptionsAhead(s, hdr, rest);
    } else {
      NotRejecting(Select(s, hdr), hdr, rest);
      assert k in hdr by { HeldIsThere(s, hdr, rest); }
      HeaderAhead(s, hdr, rest);
    }
  }

  lemma HeldIsThere(s: State, hdr: Headers, rest: Rest)
    requires !Final(s) && !Looks(s) && Holds(s, hdr, rest) && Target(s) != IPV4_OPTIONS
    ensures Target(s) in hdr
  {
  }

  lemma NotRejecting(s: State, hdr: Headers, rest: Rest)
    requires Complete(s, hdr, rest)
    ensures !s.Reject?
  {
  }

  lemma WireAhead(hdr: Headers, k: Kind, next: nat, rest: Rest)
    requires k < next <= EMITTED && NoneBetween(hdr, k + 1, next)
    ensures WireFrom(hdr, k, rest) == WireOne(hdr, k, rest) + WireFrom(hdr, next, rest)
  {
    hide WireOne;
    WireSkips(hdr, k + 1, next, rest);
  }

  lemma NoOptionsAt(s: State, hdr: Headers, rest: Rest)
    requires !Final(s) && !Looks(s) && Target(s) != IPV4_OPTIONS
    ensures OptionsAt(s, hdr, rest) == [] && Target(s) == NextRank(s)
  {
  }

  lemma RankBound(s: State)
    ensures NextRank(s) <= EMITTED
  {
  }

  lemma HeaderAhead(s: State, hdr: Headers, rest: Rest)
    requires !Final(s) && !Looks(s) && Target(s) != IPV4_OPTIONS && Target(s) in hdr && !Select(s, hdr).Reject?
    requires |rest.options| == OptionGap(hdr) && NoneBetween(hdr, After(s), NextRank(Select(s, hdr)))
    ensures Ahead(s, hdr, rest) == Taken(s, hdr, rest) + Ahead(Select(s, hdr), hdr, rest)
  {
    NoOptionsAt(s, hdr, rest);
    assert After(s) == Target(s) + 1;
    hide WireFrom, WireOne, NoneBetween, Select, NextRank, Taken, OptionGap, OptionsAt, Target, Final, Looks, After;
    SelectAdvances(s, hdr);
    OptionsFollow(s, hdr, rest);
    var k, next := Target(s), Select(s, hdr);
    RankBound(next);
    WireAhead(hdr, k, NextRank(next), rest);
    Joined(WireOne(hdr, k, rest), Taken(s, hdr, rest), OptionsAt(next, hdr, rest), WireFrom(hdr, NextRank(next), rest));
  }

  lemma Joined(one: Bits, taken: Bits, options: Bits, more: Bits)
    requires one == taken + options
    ensures one + more == taken + (options + more)
  {
  }

  /** The header a state stores when it follows the stack. */
  function StoredBy(s: State, hdr: Headers, rest: Rest): Header
    requires !Final(s) && !Looks(s) && (s.ParseIpv4Options? || Target(s) in hdr)
  {
    if s.ParseIpv4Options? then Options(rest.options) else hdr[Target(s)]
  }

  lemma TakenIsStored(s: State, hdr: Headers, rest: Rest)
    requires !Final(s) && !Looks(s) && Holds(s, hdr, rest)
    ensures |Taken(s, hdr, rest)| == Size(s, hdr)
    ensures IsVariable(Target(s)) ==> Size(s, hdr) <= MAX_OPTIONS
    ensures IsVariable(Target(s)) || |Taken(s, hdr, rest)| == Width(Layout(Target(s)))
    ensures Extracted(Target(s), Taken(s, hdr, rest)) == StoredBy(s, hdr, rest)
  {
    hide Layout, Unpack, Size;
    if !s.ParseIpv4Options? {
      StoredReturns(Target(s), hdr[Target(s)]);
    }
  }

  /** One extraction on the packet takes exactly the next header or options. */
  lemma ExtractTracks(packet: Bits, c: Config, hdr: Headers, rest: Rest)
    requires Tracks(packet, c, hdr, rest) && !Final(c.state) && !Looks(c.state)
    ensures Holds(c.state, hdr, rest)
    ensures var c' := Extract(packet, c);
            && c'.hdr == c.hdr[Target(c.state) := StoredBy(c.state, hdr, rest)]
            && c'.state == Select(c.state, c'.hdr)
            && c'.cursor <= |packet|
            && packet[c'.cursor..] == Ahead(Select(c.state, hdr), hdr, rest)
  {
    hide Layout, Encode, WireFrom, Select, NextRank, Complete, After, Unpack, Ahead, Taken, Holds, StoredBy, Extracted, Size;
    var s := c.state;
    SizeAgrees(s, c.hdr, hdr);
    CompleteHere(s, hdr, rest);
    TakenFirst(s, hdr, rest);
    TakenIsStored(s, hdr, rest);
    SplitAhead(packet, c.cursor, Taken(s, hdr, rest), Ahead(Select(s, hdr), hdr, rest));
  }

  lemma AgreeGrows(part: Headers, hdr: Headers, s: State, h: Header, next: nat)
    requires !Final(s) && !Looks(s) && (Target(s) != IPV4_OPTIONS ==> Target(s) in hdr && h == hdr[Target(s)])
    requires Agree(part, hdr, NextRank(s)) && Below(part, NextRank(s))
    requires Target(s) != IPV4_OPTIONS ==> Target(s) == NextRank(s)
    requires After(s) <= next && NoneBetween(hdr, After(s), next)
    ensures var grown := part[Target(s) := h];
            Agree(grown, hdr, After(s)) && Agree(grown, hdr, next) && Below(grown, next)
  {
  }

  lemma AgreeWidens(part: Headers, hdr: Headers, rank: nat, next: nat)
    requires rank <= next && Agree(part, hdr, rank) && Below(part, rank) && NoneBetween(hdr, rank, next)
    ensures Agree(part, hdr, next) && Below(part, next)
  {
  }

  lemma CompleteLook(s: State, hdr: Headers, rest: Rest)
    requires Complete(s, hdr, rest) && Looks(s)
    ensures var next := Select(s, hdr);
            && |WireFrom(hdr, NextRank(s), rest)| >= 32
            && NextRank(s) <= NextRank(next) && NoneBetween(hdr, NextRank(s), NextRank(next))
            && Complete(next, hdr, rest)
            && !next.ParseIpv4Options? && !next.ParseInnerIpv4Options? && !BeforeOptions(next)
  {
    hide Layout, Encode, WireFrom, NoneBetween, NextRank, Conforms, Size, Target, After, Select;
    LookNext(s, hdr);
  }

  lemma LookNext(s: State, hdr: Headers)
    requires Looks(s)
    ensures !Select(s, hdr).ParseInnerIpv4Options? && !BeforeOptions(Select(s, hdr))
  {
  }

  lemma LookTracks(packet: Bits, c: Config, hdr: Headers, rest: Rest)
    requires Tracks(packet, c, hdr, rest) && Looks(c.state)
    ensures Tracks(packet, Look(packet, c), hdr, rest)
  {
    hide Layout, Encode, WireFrom, Unpack, Conforms, Agree, Below, NoneBetween, Complete, Select, OptionGap;
    var s, next := c.state, Select(c.state, hdr);
    CompleteLook(s, hdr, rest);
    SelectAgrees(s, c.hdr, hdr, NextRank(s));
    AgreeWidens(c.hdr, hdr, NextRank(s), NextRank(next));
    WireSkips(hdr, NextRank(s), NextRank(next), rest);
    assert c.cursor + 32 <= |packet|;
  }

  /** Which states a state leads to around the options. */
  lemma OptionsNext(s: State, part: Headers, hdr: Headers, rest: Rest)
    requires !Final(s) && !Looks(s) && |rest.options| == OptionGap(hdr)
    requires s.ParseEthernet? && !Select(s, part).ParseIpv4? ==> IPV4 !in hdr
    requires s.ParseIpv4? ==> IPV4 in hdr && Ihl(part) == Ihl(hdr)
    ensures BeforeOptions(Select(s, part)) ==> s.ParseEthernet? || s.ParseIpv4?
    ensures BeforeOptions(s) && !BeforeOptions(Select(s, part)) && !s.ParseIpv4Options? && !Select(s, part).Reject? ==> rest.options == []
    ensures Select(s, part).ParseIpv4Options? ==> rest.options != []
    ensures Select(s, part).ParseInnerIpv4Options? <==> s.ParseInnerIpv4?
  {
  }

  /** A stack without an outer IPv4 header goes another way from the start. */
  lemma Ipv4Next(s: State, hdr: Headers)
    requires s.ParseEthernet? && !Select(s, hdr).ParseIpv4? && NoneBetween(hdr, After(s), NextRank(Select(s, hdr)))
    ensures IPV4 !in hdr
  {
  }

  lemma OptionsStayAgreed(c: Config, hdr: Headers, rest: Rest, c': Config)
    requires !Final(c.state) && !Looks(c.state) && Holds(c.state, hdr, rest) && OptionsAgree(c, hdr, rest)
    requires c'.hdr == c.hdr[Target(c.state) := StoredBy(c.state, hdr, rest)] && Below(c.hdr, NextRank(c.state))
    requires BeforeOptions(c'.state) ==> c.state.ParseEthernet? || c.state.ParseIpv4?
    requires BeforeOptions(c.state) && !BeforeOptions(c'.state) && !c.state.ParseIpv4Options? ==> rest.options == []
    requires c.state.ParseIpv4Options? ==> rest.options != []
    requires c.state.ParseInnerIpv4Options? ==> INNER_IPV4 in c.hdr
    requires c'.state.ParseInnerIpv4Options? <==> c.state.ParseInnerIpv4?
    ensures OptionsAgree(c', hdr, rest)
  {
    hide Conforms, Encode, Size, Layout;
  }

  lemma ExtractKeepsTrack(packet: Bits, c: Config, hdr: Headers, rest: Rest)
    requires Tracks(packet, c, hdr, rest) && !Final(c.state) && !Looks(c.state)
    ensures Tracks(packet, Extract(packet, c), hdr, rest)
  {
    hide Layout, Encode, WireFrom, Select, Unpack, Extract, Conforms, Size, NoneBetween, Agree, Below, OptionsAgree,
      Complete, OptionGap, Ahead, Holds, NextRank, Ihl, StoredBy;
    var s, c' := c.state, Extract(packet, c);
    CompleteHere(s, hdr, rest);
    ExtractTracks(packet, c, hdr, rest);
    var h := StoredBy(s, hdr, rest);
    StoredIsInStack(s, hdr, rest);
    AgreeGrows(c.hdr, hdr, s, h, NextRank(Select(s, hdr)));
    SelectAgrees(s, c'.hdr, hdr, After(s));
    NotRejecting(Select(s, hdr), hdr, rest);
    if s.ParseEthernet? && !Select(s, hdr).ParseIpv4? {
      Ipv4Next(s, hdr);
    }
    if s.ParseIpv4? {
      IhlAgrees(c'.hdr, hdr, After(s));
    }
    OptionsNext(s, c'.hdr, hdr, rest);
    OptionsStayAgreed(c, hdr, rest, c');
    if s.ParseInnerIpv4? {
      assert Target(s) == INNER_IPV4;
    }
  }

  lemma IhlAgrees(part: Headers, hdr: Headers, rank: nat)
    requires Agree(part, hdr, rank) && rank > IPV4
    ensures Ihl(part) == Ihl(hdr)
  {
    FieldAgrees(part, hdr, rank, IPV4, 1);
  }

  lemma StoredIsInStack(s: State, hdr: Headers, rest: Rest)
    requires !Final(s) && !Looks(s) && Holds(s, hdr, rest)
    ensures s.ParseIpv4Options? || Target(s) in hdr
    ensures Target(s) != IPV4_OPTIONS ==> Target(s) in hdr && StoredBy(s, hdr, rest) == hdr[Target(s)]
  {
  }

  lemma StartTracks(hdr: Headers, rest: Rest)
    requires WellFormed(hdr, rest)
    ensures Tracks(Wire(hdr, rest), START, hdr, rest)
  {
    hide WireFrom, Complete, OptionGap;
    var packet := Wire(hdr, rest);
    assert packet[0..] == packet && [] + packet == packet;
  }

  lemma {:induction false} FinishTracks(packet: Bits, c: Config, hdr: Headers, rest: Rest)
    requires Tracks(packet, c, hdr, rest)
    ensures Finish(packet, c).state.Accept? && Tracks(packet, Finish(packet, c), hdr, rest)
    decreases Remaining(c.state)
  {
    hide Layout, Encode, WireFrom, Unpack, Conforms, Agree, Below, NoneBetween, Select, Extract, Look, Ahead, OptionsAgree, Holds;
    if !Final(c.state) {
      if Looks(c.state) {
        LookTracks(packet, c, hdr, rest);
      } else {
        ExtractKeepsTrack(packet, c, hdr, rest);
      }
      FinishTracks(packet, Step(packet, c), hdr, rest);
    }
  }

  /** Parsing the packet of a well-formed stack, options included, returns that very stack
      and stops in front of the payload. */
  lemma WireThenParse(hdr: Headers, rest: Rest)
    requires WellFormed(hdr, rest)
    ensures var packet := Wire(hdr, rest);
            var c := Parse(packet);
            && c.state.Accept? && c.hdr == hdr
            && c.cursor <= |packet| && packet[c.cursor..] == rest.payload
  {
    hide Layout, Encode, Unpack, Conforms, Select, Extract, Look, Step, Wire, Complete;
    StartTracks(hdr, rest);
    FinishTracks(Wire(hdr, rest), START, hdr, rest);
    SameStack(Wire(hdr, rest), Parse(Wire(hdr, rest)), hdr, rest);
  }

  lemma SameStack(packet: Bits, c: Config, hdr: Headers, rest: Rest)
    requires Tracks(packet, c, hdr, rest) && c.state.Accept? && OptionsStored(hdr, rest)
    ensures c.hdr == hdr && packet[c.cursor..] == rest.payload
  {
    hide OptionGap, Complete;
    assert INNER_IPV4 in c.hdr <==> INNER_IPV4 in hdr;
    assert forall k :: k in c.hdr <==> k in hdr;
    assert [] + rest.payload == rest.payload;
  }
}
