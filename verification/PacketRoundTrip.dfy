/** Parser and deparser against each other, in both directions. */
module PacketRoundTrip {
  import opened MovingAverage
  import opened BitFields
  import opened PacketParser

  // -------------------------------------------------------------------------
  // Emitting
  // -------------------------------------------------------------------------

  /** Every emitted header sits below `rank`. */
  ghost predicate Below(hdr: Headers, rank: nat) {
    forall k :: k in hdr && k != IPV4_OPTIONS ==> k < rank
  }

  ghost predicate NoneBetween(hdr: Headers, lo: nat, hi: nat) {
    forall k: Kind :: lo <= k < hi ==> k !in hdr
  }

  lemma {:induction false} EmitSkips(hdr: Headers, lo: nat, hi: nat)
    requires lo <= hi <= EMITTED && NoneBetween(hdr, lo, hi)
    ensures EmitFrom(hdr, lo) == EmitFrom(hdr, hi)
    decreases hi - lo
  {
    if lo < hi {
      EmitSkips(hdr, lo + 1, hi);
    }
  }

  lemma EmitLast(hdr: Headers, k: Kind, h: Header)
    requires k != IPV4_OPTIONS && Below(hdr, k)
    ensures EmitFrom(hdr, k) == []
    ensures EmitFrom(hdr[k := h], k) == Encode(k, h)
  {
    EmitSkips(hdr, k, EMITTED);
    EmitSkips(hdr[k := h], k + 1, EMITTED);
  }

  lemma Prefixed(one: Bits, tail: Bits, bits: Bits, whole: Bits, grown: Bits)
    requires whole == one + tail && grown == one + (tail + bits)
    ensures grown == whole + bits
  {
  }

  lemma EmitUnfolds(hdr: Headers, rank: nat)
    requires rank < EMITTED
    ensures EmitFrom(hdr, rank) == EmitOne(hdr, rank) + EmitFrom(hdr, rank + 1)
  {
  }

  lemma EmitGrows(hdr: Headers, grown: Headers, rank: nat, bits: Bits)
    requires rank < EMITTED && EmitOne(grown, rank) == EmitOne(hdr, rank)
    requires EmitFrom(grown, rank + 1) == EmitFrom(hdr, rank + 1) + bits
    ensures EmitFrom(grown, rank) == EmitFrom(hdr, rank) + bits
  {
    EmitUnfolds(hdr, rank);
    EmitUnfolds(grown, rank);
    Prefixed(EmitOne(hdr, rank), EmitFrom(hdr, rank + 1), bits, EmitFrom(hdr, rank), EmitFrom(grown, rank));
  }

  /** Adding the header that comes next in the emit order appends its bits. */
  lemma {:induction false} EmitAppends(hdr: Headers, k: Kind, h: Header, rank: nat)
    requires k != IPV4_OPTIONS && Below(hdr, k) && rank <= k
    ensures EmitFrom(hdr[k := h], rank) == EmitFrom(hdr, rank) + Encode(k, h)
    decreases k - rank
  {
    if rank == k {
      EmitLast(hdr, k, h);
    } else {
      EmitAppends(hdr, k, h, rank + 1);
      EmitGrows(hdr, hdr[k := h], rank, Encode(k, h));
    }
  }

  lemma {:induction false} EmitIgnoresOptions(hdr: Headers, h: Header, rank: nat)
    ensures EmitFrom(hdr[IPV4_OPTIONS := h], rank) == EmitFrom(hdr, rank)
    decreases EMITTED - rank
  {
    if rank < EMITTED {
      EmitIgnoresOptions(hdr, h, rank + 1);
    }
  }

  // -------------------------------------------------------------------------
  // What every parser state knows
  // -------------------------------------------------------------------------

  /** All emitted headers below this number have been decided. */
  function NextRank(s: State): nat {
    match s
    case ParseEthernet => ETHERNET
    case ParseIpv4 => IPV4
    case ParseIpv4Options | ParseIpv4NoOptions | ParseIcmp => ICMP
    case ParseTcp => TCP
    case ParseTcpOptions => TCP_OPTIONS
    case ParseUdp => UDP
    case ParseVxlan => VXLAN
    case ParseInnerEthernet => INNER_ETHERNET
    case ParseInnerIpv4 => INNER_IPV4
    case ParseInnerIpv4Options | ParseInnerIpv4NoOptions | ParseInnerIcmp => INNER_ICMP
    case ParseInnerTcp => INNER_TCP
    case ParseInnerTcpOptions => INNER_TCP_OPTIONS
    case ParseInnerUdp => INNER_UDP
    case ParsePm => PM
    case ParseFlowMonitoring => FLOW_MON
    case ParseFlowExportRequest => FLOW_EXPORT_REQUEST
    case ParseFlowExportResponse => FLOW_RECORD_DATA
    case Accept | Reject(_) => EMITTED
  }

  lemma SelectAdvances(s: State, hdr: Headers)
    requires !Final(s)
    ensures NextRank(s) <= NextRank(Select(s, hdr))
    ensures !Looks(s) && Target(s) != IPV4_OPTIONS ==> Target(s) == NextRank(s) < NextRank(Select(s, hdr))
  {
  }

  /** Headers are stored as the parser extracts them. */
  ghost predicate Conforms(k: Kind, h: Header) {
    if IsVariable(k) then h.Options? && |h.bits| <= MAX_OPTIONS
    else h.Fields? && Fit(Layout(k), h.values)
  }

  /** A TCP header whose options have been read has a data offset of at least five,
      and an options header of the length that offset announces. */
  ghost predicate TcpAgrees(hdr: Headers, tcp: Kind, options: Kind) {
    options in hdr ==>
      tcp in hdr && DataOffset(hdr, tcp) >= 5 && hdr[options].Options?
      && |hdr[options].bits| == (DataOffset(hdr, tcp) - 5) * 32
  }

  ghost predicate TcpChecked(c: Config, tcp: Kind, options: Kind) {
    && TcpAgrees(c.hdr, tcp, options)
    && (tcp in c.hdr && !c.state.Reject? ==>
          options in c.hdr || (!Final(c.state) && !Looks(c.state) && Target(c.state) == options))
  }

  lemma TcpOffsetDoesNotWrap(hdr: Headers, k: Kind)
    requires k == TCP || k == INNER_TCP
    requires k in hdr && Conforms(k, hdr[k]) && TcpOptionBits(hdr, k) <= MAX_OPTIONS
    ensures DataOffset(hdr, k) >= 5 && TcpOptionBits(hdr, k) == (DataOffset(hdr, k) - 5) * 32
  {
    assert hdr[k].values[4] < Pow2(4) == 16;
  }

  lemma IhlIsFourBits(hdr: Headers)
    requires IPV4 in hdr && Conforms(IPV4, hdr[IPV4]) && Ihl(hdr) >= 5
    ensures Ihl(hdr) < 16 && Ipv4OptionBits(hdr) == (Ihl(hdr) - 5) * 32
  {
    assert hdr[IPV4].values[1] < Pow2(4) == 16;
  }

  // -------------------------------------------------------------------------
  // Parse, then emit
  // -------------------------------------------------------------------------

  ghost predicate AllConform(hdr: Headers) {
    forall k :: k in hdr ==> Conforms(k, hdr[k])
  }

  /** Bits of outer IPv4 options announced by the header. */
  ghost function OptionGap(hdr: Headers): nat {
    if IPV4 in hdr then Ipv4OptionBits(hdr) else 0
  }

  /** How many times the option bits have been skipped: once behind the outer IPv4
      header and, with the outer length again, once behind the inner one. */
  ghost function Skipped(c: Config): nat {
    if IPV4 !in c.hdr || c.state.ParseIpv4Options? then 0
    else if INNER_IPV4 !in c.hdr || c.state.ParseInnerIpv4Options? then 1
    else 2
  }

  /** Where a state finds the cursor, and which headers it can count on. */
  ghost predicate Located(c: Config) {
    var gap := OptionGap(c.hdr);
    match c.state
    case ParseEthernet => c.cursor == 0
    case ParseIpv4 | ParseFlowMonitoring | ParseFlowExportRequest | ParseFlowExportResponse =>
      c.cursor == 112 && IPV4 !in c.hdr
    case ParseIpv4Options => c.cursor == 272 && IPV4 in c.hdr
    case ParseIpv4NoOptions | ParseIcmp | ParseTcp | ParseUdp => c.cursor == 272 + gap && IPV4 in c.hdr
    case ParseTcpOptions => c.cursor == 432 + gap && IPV4 in c.hdr && TCP in c.hdr
    case ParseVxlan => c.cursor == 336 + gap && IPV4 in c.hdr
    case ParseInnerEthernet => c.cursor == 400 + gap && IPV4 in c.hdr
    case ParseInnerIpv4 => c.cursor == 512 + gap && IPV4 in c.hdr
    case ParseInnerIpv4Options => c.cursor == 672 + gap && IPV4 in c.hdr && INNER_IPV4 in c.hdr
    case ParseInnerIpv4NoOptions | ParseInnerIcmp | ParseInnerTcp | ParseInnerUdp =>
      c.cursor == 672 + 2 * gap && IPV4 in c.hdr && INNER_IPV4 in c.hdr
    case ParseInnerTcpOptions =>
      c.cursor == 832 + 2 * gap && IPV4 in c.hdr && INNER_IPV4 in c.hdr && INNER_TCP in c.hdr
    case ParsePm | Accept =>
      c.cursor >= (if Skipped(c) == 0 then 112 else if Skipped(c) == 1 then 272 + gap else 672 + 2 * gap)
    case Reject(_) => true
  }

  /** The part of the packet up to the cursor that emitting has to reproduce. */
  ghost function Kept(packet: Bits, cursor: nat, gap: nat, skipped: nat): Bits {
    if skipped == 1 && 272 + gap <= cursor <= |packet| then packet[..272] + packet[272 + gap..cursor]
    else if skipped == 2 && 672 + 2 * gap <= cursor <= |packet| then
      packet[..272] + packet[272 + gap..672 + gap] + packet[672 + 2 * gap..cursor]
    else if cursor <= |packet| then packet[..cursor]
    else packet
  }

  ghost predicate Structured(packet: Bits, c: Config) {
    && c.cursor <= |packet|
    && Below(c.hdr, NextRank(c.state))
    && AllConform(c.hdr)
    && Located(c)
    && OuterChecked(c.hdr)
    && TcpChecked(c, TCP, TCP_OPTIONS)
    && TcpChecked(c, INNER_TCP, INNER_TCP_OPTIONS)
  }

  lemma FourParts(a: seq<nat>, b: seq<nat>, c: seq<nat>, d: seq<nat>)
    ensures Width(a + b + c + d) == Width(a) + Width(b) + Width(c) + Width(d)
  {
    WidthAppends(a + b + c, d);
    WidthAppends(a + b, c);
    WidthAppends(a, b);
  }

  lemma Ipv4Width()
    ensures Width(Layout(IPV4)) == 160
  {
    FourParts([4, 4, 8, 16], [16, 3, 13], [8, 8, 16], [32, 32]);
  }

  lemma TcpWidth()
    ensures Width(Layout(TCP)) == 160
  {
    FourParts([16, 16], [32, 32], [4, 4, 8, 16], [16, 16]);
  }

  lemma OtherWidths()
    ensures Width(Layout(ETHERNET)) == 112 && Width(Layout(UDP)) == 64 && Width(Layout(VXLAN)) == 64
  {
    assert Width([48, 48, 16]) == 112;
    assert Width([16, 16, 16, 16]) == 64;
    assert Width([8, 24, 24, 8]) == 64;
  }

  /** Length in bits of the headers that stand before or between options. */
  lemma HeaderWidths(k: Kind)
    ensures k == ETHERNET || k == INNER_ETHERNET ==> Width(Layout(k)) == 112
    ensures k == IPV4 || k == INNER_IPV4 || k == TCP || k == INNER_TCP ==> Width(Layout(k)) == 160
    ensures k == UDP || k == VXLAN ==> Width(Layout(k)) == 64
  {
    Ipv4Width();
    TcpWidth();
    OtherWidths();
    assert Layout(INNER_ETHERNET) == Layout(ETHERNET);
    assert Layout(INNER_IPV4) == Layout(IPV4);
    assert Layout(INNER_TCP) == Layout(TCP);
  }

  lemma ExtractedConforms(k: Kind, bits: Bits)
    requires if IsVariable(k) then |bits| <= MAX_OPTIONS else |bits| == Width(Layout(k))
    ensures Conforms(k, Extracted(k, bits)) && Encode(k, Extracted(k, bits)) == bits
  {
    if !IsVariable(k) {
      UnpackFits(Layout(k), bits);
      PackUnpack(Layout(k), bits);
    }
  }

  lemma StoredEmits(hdr: Headers, k: Kind, bits: Bits)
    requires if IsVariable(k) then |bits| <= MAX_OPTIONS else |bits| == Width(Layout(k))
    requires k != IPV4_OPTIONS ==> Below(hdr, k)
    ensures Emit(hdr[k := Extracted(k, bits)]) == Emit(hdr) + if k == IPV4_OPTIONS then [] else bits
  {
    ExtractedConforms(k, bits);
    if k == IPV4_OPTIONS {
      EmitIgnoresOptions(hdr, Extracted(k, bits), 0);
    } else {
      EmitAppends(hdr, k, Extracted(k, bits), 0);
    }
  }

  /** A header stored, and the cursor behind its bits. */
  ghost predicate Stores(packet: Bits, c: Config, k: Kind, bits: Bits, c': Config) {
    && (if IsVariable(k) then |bits| <= MAX_OPTIONS else |bits| == Width(Layout(k)))
    && c.cursor + |bits| <= |packet| && bits == packet[c.cursor..c.cursor + |bits|]
    && c'.hdr == c.hdr[k := Extracted(k, bits)]
    && c'.cursor == c.cursor + |bits|
  }

  /** What one extracting state does when it does not reject. */
  ghost predicate Extracts(packet: Bits, c: Config, k: Kind, bits: Bits, c': Config) {
    && !Final(c.state) && !Looks(c.state)
    && k == Target(c.state)
    && Stores(packet, c, k, bits, c')
    && |bits| == Size(c.state, c.hdr)
    && c'.state == Select(c.state, c'.hdr)
  }

  lemma StepExtracts(packet: Bits, c: Config)
    requires !Final(c.state) && !Looks(c.state) && !Step(packet, c).state.Reject?
    ensures var size := Size(c.state, c.hdr);
            && c.cursor + size <= |packet|
            && Extracts(packet, c, Target(c.state), packet[c.cursor..c.cursor + size], Step(packet, c))
  {
  }

  lemma ExtractKeepsOrder(packet: Bits, c: Config, k: Kind, bits: Bits, c': Config)
    requires Extracts(packet, c, k, bits, c')
    requires Below(c.hdr, NextRank(c.state)) && AllConform(c.hdr)
    ensures Below(c'.hdr, NextRank(c'.state)) && AllConform(c'.hdr)
  {
    SelectAdvances(c.state, c'.hdr);
    ExtractedConforms(k, bits);
  }

  lemma OuterFieldsStay(hdr: Headers, k: Kind, h: Header)
    requires k != IPV4
    ensures OptionGap(hdr[k := h]) == OptionGap(hdr)
    ensures Version(hdr[k := h]) == Version(hdr) && Ihl(hdr[k := h]) == Ihl(hdr)
  {
  }

  /** Only IPv4 headers of version 4 with at least five words get past parse_ipv4. */
  ghost predicate OuterChecked(hdr: Headers) {
    IPV4 in hdr ==> Version(hdr) == 4 && 5 <= Ihl(hdr) < 16
  }

  lemma ExtractKeepsOuter(packet: Bits, c: Config, k: Kind, bits: Bits, c': Config)
    requires Extracts(packet, c, k, bits, c') && !c'.state.Reject?
    requires OuterChecked(c.hdr)
    ensures OuterChecked(c'.hdr)
  {
    if k == IPV4 {
      ExtractedConforms(k, bits);
      IhlIsFourBits(c'.hdr);
    } else {
      OuterFieldsStay(c.hdr, k, Extracted(k, bits));
    }
  }

  lemma ExtractKeepsTcp(packet: Bits, c: Config, k: Kind, bits: Bits, c': Config, tcp: Kind, options: Kind)
    requires (tcp == TCP && options == TCP_OPTIONS) || (tcp == INNER_TCP && options == INNER_TCP_OPTIONS)
    requires Extracts(packet, c, k, bits, c')
    requires Below(c.hdr, NextRank(c.state)) && AllConform(c.hdr) && TcpChecked(c, tcp, options)
    requires k == options ==> tcp in c.hdr
    ensures TcpChecked(c', tcp, options)
  {
    SelectAdvances(c.state, c'.hdr);
    if k == options {
      TcpOffsetDoesNotWrap(c.hdr, tcp);
    } else if k == tcp {
      assert options !in c.hdr;
    }
  }

  /** The states up to the VXLAN header. */
  predicate IsOuter(s: State) {
    || s.ParseEthernet? || s.ParseIpv4? || s.ParseIpv4Options? || s.ParseIcmp?
    || s.ParseTcp? || s.ParseTcpOptions? || s.ParseUdp?
  }

  lemma ExtractLocatesOuter(packet: Bits, c: Config, k: Kind, bits: Bits, c': Config)
    requires Extracts(packet, c, k, bits, c') && IsOuter(c.state) && !c'.state.Reject?
    requires Below(c.hdr, NextRank(c.state)) && Located(c) && OuterChecked(c'.hdr)
    ensures Located(c')
  {
    hide Layout, Unpack, Extracted;
    HeaderWidths(k);
    if k != IPV4 {
      OuterFieldsStay(c.hdr, k, Extracted(k, bits));
    }
  }

  lemma ExtractLocatesInner(packet: Bits, c: Config, k: Kind, bits: Bits, c': Config)
    requires Extracts(packet, c, k, bits, c') && !IsOuter(c.state)
    requires Below(c.hdr, NextRank(c.state)) && Located(c)
    ensures Located(c')
  {
    HeaderWidths(k);
    OuterFieldsStay(c.hdr, k, Extracted(k, bits));
  }

  lemma SliceAppends(packet: Bits, a: nat, b: nat, c: nat)
    requires a <= b <= c <= |packet|
    ensures packet[a..b] + packet[b..c] == packet[a..c]
  {
  }

  /** Reading further extends what is kept, as long as the count of skips stays. */
  lemma KeptGrows(packet: Bits, from: nat, to: nat, gap: nat, skipped: nat, before: Bits, after: Bits)
    requires from <= to <= |packet| && skipped <= 2
    requires skipped == 1 ==> 272 + gap <= from
    requires skipped == 2 ==> 672 + 2 * gap <= from
    requires before == Kept(packet, from, gap, skipped) && after == before + packet[from..to]
    ensures after == Kept(packet, to, gap, skipped)
  {
    var start := if skipped == 0 then 0 else if skipped == 1 then 272 + gap else 672 + 2 * gap;
    SliceAppends(packet, start, from, to);
  }

  /** Skipping the option bits keeps what was kept. */
  lemma KeptSkips(packet: Bits, gap: nat)
    ensures 272 + gap <= |packet| ==> Kept(packet, 272 + gap, gap, 1) == Kept(packet, 272, gap, 0)
    ensures 672 + 2 * gap <= |packet| ==> Kept(packet, 672 + 2 * gap, gap, 2) == Kept(packet, 672 + gap, gap, 1)
  {
  }

  /** Without options nothing is skipped. */
  lemma KeptWithoutGap(packet: Bits, cursor: nat, skipped: nat)
    requires skipped == 1 ==> 272 <= cursor
    requires skipped == 2 ==> 672 <= cursor
    ensures Kept(packet, cursor, 0, skipped) == Kept(packet, cursor, 0, 0)
  {
  }

  lemma SkippedAfter(packet: Bits, c: Config, k: Kind, bits: Bits, c': Config)
    requires Extracts(packet, c, k, bits, c') && !c'.state.Reject?
    requires Below(c.hdr, NextRank(c.state)) && Located(c) && OuterChecked(c'.hdr)
    ensures k == IPV4 ==> Skipped(c) == 0 && OptionGap(c.hdr) == 0 && c'.cursor == 272
                          && Skipped(c') == if Ihl(c'.hdr) == 5 then 1 else 0
    ensures k == IPV4_OPTIONS ==> |bits| == OptionGap(c.hdr) && Skipped(c') == Skipped(c) + 1
                                  && (if c.state.ParseIpv4Options? then Skipped(c) == 0 && c.cursor == 272
                                      else Skipped(c) == 1 && c.cursor == 672 + OptionGap(c.hdr))
    ensures k != IPV4 && k != IPV4_OPTIONS ==> Skipped(c') == Skipped(c)
  {
    HeaderWidths(k);
  }

  lemma SkippedBound(packet: Bits, c: Config)
    requires Located(c) && !Final(c.state) && Below(c.hdr, NextRank(c.state))
    ensures Skipped(c) == 1 ==> 272 + OptionGap(c.hdr) <= c.cursor
    ensures Skipped(c) == 2 ==> 672 + 2 * OptionGap(c.hdr) <= c.cursor
  {
  }

  lemma IhlGap(hdr: Headers)
    requires IPV4 in hdr && OuterChecked(hdr)
    ensures OptionGap(hdr) == (Ihl(hdr) - 5) * 32
  {
  }

  ghost predicate Faithful(packet: Bits, c: Config) {
    Emit(c.hdr) == Kept(packet, c.cursor, OptionGap(c.hdr), Skipped(c))
  }

  lemma Ipv4Emits(packet: Bits, c: Config, bits: Bits, c': Config)
    requires Stores(packet, c, IPV4, bits, c') && Faithful(packet, c)
    requires Below(c.hdr, IPV4) && OuterChecked(c'.hdr)
    requires Skipped(c) == 0 && OptionGap(c.hdr) == 0 && c'.cursor == 272
    requires Skipped(c') == if Ihl(c'.hdr) == 5 then 1 else 0
    ensures Faithful(packet, c')
  {
    StoredEmits(c.hdr, IPV4, bits);
    KeptGrows(packet, c.cursor, c'.cursor, 0, 0, Emit(c.hdr), Emit(c'.hdr));
    IhlGap(c'.hdr);
    KeptWithoutGap(packet, c'.cursor, 1);
  }

  lemma OptionsEmit(packet: Bits, c: Config, bits: Bits, c': Config)
    requires Stores(packet, c, IPV4_OPTIONS, bits, c') && Faithful(packet, c)
    requires |bits| == OptionGap(c.hdr) && Skipped(c') == Skipped(c) + 1
    requires (Skipped(c) == 0 && c.cursor == 272) || (Skipped(c) == 1 && c.cursor == 672 + OptionGap(c.hdr))
    ensures Faithful(packet, c')
  {
    StoredEmits(c.hdr, IPV4_OPTIONS, bits);
    OuterFieldsStay(c.hdr, IPV4_OPTIONS, Extracted(IPV4_OPTIONS, bits));
    KeptSkips(packet, OptionGap(c.hdr));
  }

  lemma StoredSame(packet: Bits, c: Config, k: Kind, bits: Bits, c': Config)
    requires k != IPV4 && k != IPV4_OPTIONS && Stores(packet, c, k, bits, c') && Below(c.hdr, k)
    ensures Emit(c'.hdr) == Emit(c.hdr) + packet[c.cursor..c'.cursor]
    ensures OptionGap(c'.hdr) == OptionGap(c.hdr)
  {
    StoredEmits(c.hdr, k, bits);
    OuterFieldsStay(c.hdr, k, Extracted(k, bits));
  }

  lemma OthersEmit(packet: Bits, c: Config, c': Config)
    requires c.cursor <= c'.cursor <= |packet| && Faithful(packet, c)
    requires Emit(c'.hdr) == Emit(c.hdr) + packet[c.cursor..c'.cursor]
    requires OptionGap(c'.hdr) == OptionGap(c.hdr)
    requires Skipped(c') == Skipped(c) <= 2
    requires Skipped(c) == 1 ==> 272 + OptionGap(c.hdr) <= c.cursor
    requires Skipped(c) == 2 ==> 672 + 2 * OptionGap(c.hdr) <= c.cursor
    ensures Faithful(packet, c')
  {
    KeptGrows(packet, c.cursor, c'.cursor, OptionGap(c.hdr), Skipped(c), Emit(c.hdr), Emit(c'.hdr));
  }

  lemma ExtractEmits(packet: Bits, c: Config, k: Kind, bits: Bits, c': Config)
    requires Extracts(packet, c, k, bits, c') && !c'.state.Reject? && Faithful(packet, c)
    requires Below(c.hdr, NextRank(c.state)) && Located(c) && OuterChecked(c'.hdr)
    ensures Faithful(packet, c')
  {
    SelectAdvances(c.state, c'.hdr);
    SkippedAfter(packet, c, k, bits, c');
    SkippedBound(packet, c);
    if k == IPV4 {
      Ipv4Emits(packet, c, bits, c');
    } else if k == IPV4_OPTIONS {
      OptionsEmit(packet, c, bits, c');
    } else {
      StoredSame(packet, c, k, bits, c');
      OthersEmit(packet, c, c');
    }
  }

  // -------------------------------------------------------------------------
  // Every accepted packet
  // -------------------------------------------------------------------------

  ghost predicate Sound(packet: Bits, c: Config) {
    c.state.Reject? || (Structured(packet, c) && Faithful(packet, c))
  }

  lemma StepSound(packet: Bits, c: Config)
    requires !Final(c.state) && Sound(packet, c)
    ensures Sound(packet, Step(packet, c))
  {
    var c' := Step(packet, c);
    if !c'.state.Reject? {
      if Looks(c.state) {
        LookSound(packet, c);
      } else {
        StepExtracts(packet, c);
        var k, bits := Target(c.state), packet[c.cursor..c.cursor + Size(c.state, c.hdr)];
        ExtractSound(packet, c, k, bits, c');
      }
    }
  }

  lemma LookLocates(c: Config, s: State)
    requires Looks(c.state) && s == Select(c.state, c.hdr)
    requires Below(c.hdr, NextRank(c.state)) && Located(c)
    ensures Located(c.(state := s)) && Skipped(c.(state := s)) == Skipped(c)
  {
  }

  lemma LookKeepsTcp(c: Config, s: State, tcp: Kind, options: Kind)
    requires (tcp == TCP && options == TCP_OPTIONS) || (tcp == INNER_TCP && options == INNER_TCP_OPTIONS)
    requires Looks(c.state) && TcpChecked(c, tcp, options)
    ensures TcpChecked(c.(state := s), tcp, options)
  {
  }

  lemma LookSound(packet: Bits, c: Config)
    requires Looks(c.state) && Structured(packet, c) && Faithful(packet, c)
    ensures Sound(packet, Look(packet, c))
  {
    var s := Select(c.state, c.hdr);
    SelectAdvances(c.state, c.hdr);
    LookLocates(c, s);
    LookKeepsTcp(c, s, TCP, TCP_OPTIONS);
    LookKeepsTcp(c, s, INNER_TCP, INNER_TCP_OPTIONS);
    if !Look(packet, c).state.Reject? {
      MetaDoesNotMatter(packet, c.(state := s), Look(packet, c));
    }
  }

  lemma MetaDoesNotMatter(packet: Bits, c: Config, c': Config)
    requires Structured(packet, c) && Faithful(packet, c)
    requires c'.state == c.state && c'.hdr == c.hdr && c'.cursor == c.cursor
    ensures Structured(packet, c') && Faithful(packet, c')
  {
    assert c' == c.(meta := c'.meta);
  }

  lemma ExtractSound(packet: Bits, c: Config, k: Kind, bits: Bits, c': Config)
    requires Extracts(packet, c, k, bits, c') && !c'.state.Reject?
    requires Structured(packet, c) && Faithful(packet, c)
    ensures Structured(packet, c') && Faithful(packet, c')
  {
    ExtractKeepsOrder(packet, c, k, bits, c');
    ExtractKeepsOuter(packet, c, k, bits, c');
    ExtractKeepsTcp(packet, c, k, bits, c', TCP, TCP_OPTIONS);
    ExtractKeepsTcp(packet, c, k, bits, c', INNER_TCP, INNER_TCP_OPTIONS);
    if IsOuter(c.state) {
      ExtractLocatesOuter(packet, c, k, bits, c');
    } else {
      ExtractLocatesInner(packet, c, k, bits, c');
    }
    ExtractEmits(packet, c, k, bits, c');
  }

  lemma {:induction false} FinishSound(packet: Bits, c: Config)
    requires Sound(packet, c)
    ensures Sound(packet, Finish(packet, c))
    decreases Remaining(c.state)
  {
    if !Final(c.state) {
      StepSound(packet, c);
      FinishSound(packet, Step(packet, c));
    }
  }

  lemma StartSound(packet: Bits)
    ensures Sound(packet, START)
  {
    EmitSkips(map[], 0, EMITTED);
  }

  /** Kept up to the cursor and followed by the rest. */
  lemma KeptEnds(packet: Bits, cursor: nat, gap: nat, skipped: nat)
    requires cursor <= |packet| && skipped <= 2
    requires skipped == 1 ==> 272 + gap <= cursor
    requires skipped == 2 ==> 672 + 2 * gap <= cursor
    ensures Kept(packet, cursor, gap, skipped) + packet[cursor..] ==
            if skipped == 0 then packet
            else if skipped == 1 then packet[..272] + packet[272 + gap..]
            else packet[..272] + packet[272 + gap..672 + gap] + packet[672 + 2 * gap..]
  {
    var start := if skipped == 0 then 0 else if skipped == 1 then 272 + gap else 672 + 2 * gap;
    SliceAppends(packet, start, cursor, |packet|);
  }

  /** Bits of options between the outer IPv4 header and its payload. */
  ghost function Gap(hdr: Headers): int {
    if IPV4 in hdr then (Ihl(hdr) - 5) * 32 else 0
  }

  /** The packet without its outer IPv4 options, bits 272 to 272 + gap; behind an
      inner IPv4 header, which ends at bit 672 + gap, as many bits again. */
  ghost function WithoutOptions(packet: Bits, gap: nat, inner: bool): Bits {
    if gap == 0 || |packet| < 272 + gap || (inner && |packet| < 672 + 2 * gap) then packet
    else if inner then packet[..272] + packet[272 + gap..672 + gap] + packet[672 + 2 * gap..]
    else packet[..272] + packet[272 + gap..]
  }

  lemma AcceptedShape(packet: Bits, c: Config)
    requires c.state.Accept? && Structured(packet, c)
    ensures c.cursor <= |packet| && Gap(c.hdr) == OptionGap(c.hdr) <= MAX_OPTIONS
    ensures IPV4 !in c.hdr ==> Skipped(c) == 0 && Gap(c.hdr) == 0
    ensures IPV4 in c.hdr ==> Skipped(c) == (if INNER_IPV4 in c.hdr then 2 else 1)
    ensures Skipped(c) == 1 ==> 272 + Gap(c.hdr) <= c.cursor
    ensures Skipped(c) == 2 ==> 672 + 2 * Gap(c.hdr) <= c.cursor
  {
    hide Layout, Conforms, AllConform, TcpChecked, Emit;
    if IPV4 in c.hdr {
      IhlGap(c.hdr);
    }
  }

  lemma AcceptedReproduces(packet: Bits, c: Config)
    requires c.state.Accept? && Sound(packet, c)
    ensures 0 <= Gap(c.hdr) <= MAX_OPTIONS && c.cursor <= |packet|
    ensures Gap(c.hdr) > 0 ==> |packet| >= if INNER_IPV4 in c.hdr then 672 + 2 * Gap(c.hdr) else 272 + Gap(c.hdr)
    ensures Emit(c.hdr) + packet[c.cursor..] == WithoutOptions(packet, Gap(c.hdr), INNER_IPV4 in c.hdr)
  {
    AcceptedShape(packet, c);
    KeptIsWithout(packet, c.cursor, Gap(c.hdr), Skipped(c), INNER_IPV4 in c.hdr, Emit(c.hdr));
  }

  lemma KeptIsWithout(packet: Bits, cursor: nat, gap: nat, skipped: nat, inner: bool, emitted: Bits)
    requires cursor <= |packet| && skipped <= 2
    requires skipped == 0 ==> gap == 0
    requires gap > 0 ==> skipped == if inner then 2 else 1
    requires skipped == 1 ==> 272 + gap <= cursor
    requires skipped == 2 ==> 672 + 2 * gap <= cursor
    requires emitted == Kept(packet, cursor, gap, skipped)
    ensures emitted + packet[cursor..] == WithoutOptions(packet, gap, inner)
  {
    if gap == 0 {
      KeptWithoutGap(packet, cursor, skipped);
      KeptEnds(packet, cursor, 0, 0);
    } else {
      KeptEnds(packet, cursor, gap, skipped);
    }
  }

  /** Emitting what an accepting run extracted, followed by the rest of the packet,
      gives the packet back bit for bit, except for the outer IPv4 options; the
      same number of bits is lost again behind an inner IPv4 header, because the
      inner option state reads the outer header length. */
  lemma ParseThenEmit(packet: Bits)
    requires Parse(packet).state.Accept?
    ensures var c := Parse(packet);
            && c.cursor <= |packet|
            && 0 <= Gap(c.hdr) <= MAX_OPTIONS
            && (Gap(c.hdr) > 0 ==> |packet| >= if INNER_IPV4 in c.hdr then 672 + 2 * Gap(c.hdr) else 272 + Gap(c.hdr))
            && Emit(c.hdr) + packet[c.cursor..] == WithoutOptions(packet, Gap(c.hdr), INNER_IPV4 in c.hdr)
  {
    StartSound(packet);
    FinishSound(packet, START);
    AcceptedReproduces(packet, Parse(packet));
  }

  /** No accepted packet carries a TCP data offset below five: the 4-bit subtraction
      wraps to more option bits than the header field can hold. */
  lemma AcceptedTcpOffsets(packet: Bits)
    requires Parse(packet).state.Accept?
    ensures var hdr := Parse(packet).hdr;
            && (TCP in hdr ==> DataOffset(hdr, TCP) >= 5)
            && (INNER_TCP in hdr ==> DataOffset(hdr, INNER_TCP) >= 5)
  {
    StartSound(packet);
    FinishSound(packet, START);
  }
}
