/** Consequences of the flow-monitoring state machine that hold after every
    sequence of packets, idle-timeout messages and exports. */
module FlowProperties {
  import opened EtherTypes
  import opened MovingAverage
  import opened FlowStatistics
  import opened FlowMonitor
  import opened Options

  // -------------------------------------------------------------------------
  // What one slot reports
  // -------------------------------------------------------------------------

  lemma StartIsFirst(first: Bit56, history: History)
    requires MarksStart(first, history) && 1 <= |history| <= VALUES
    ensures first == history[0].timestamp
  {
    assert (|history| - 1) % VALUES == |history| - 1;
  }

  lemma RecordReports(r: Record, packets: History)
    requires Counts(r, packets) && packets != [] && AllPositive(Lengths(packets))
    ensures r.stats.packets == |packets| % VALUES && r.stats.bytes == Total(Lengths(packets)) % VALUES
    ensures IsLeast(r.stats.length.min, Lengths(packets)) && IsGreatest(r.stats.length.max, Lengths(packets))
    ensures r.stats.length.min <= r.stats.length.mean <= r.stats.length.max
    ensures r.stats.length.mean == Smoothed(Lengths(packets))
    ensures r.gaps.last == packets[|packets| - 1].timestamp
    ensures |packets| <= VALUES ==> r.first == packets[0].timestamp
  {
    assert AfterLastZero(Lengths(packets)) == Lengths(packets);
    if |packets| <= VALUES {
      StartIsFirst(r.first, packets);
    }
  }

  lemma RunCounts(n: nat, crc: FlowTuple -> nat, events: seq<Event>, h: nat)
    requires h < n
    ensures Counts(Run(n, crc, events).device.slots[h].record, Epoch(Run(n, crc, events).log, h))
  {
    hide Run, Counts, Epoch;
    RunFollows(n, crc, events);
    var w := Run(n, crc, events);
    assert Follows(w.device.slots[h], w.log, h);
  }

  /** The registers of a slot, spelled out, once it has counted packets of positive
      length: exact counters, true extremes, the natural moving average. */
  lemma SlotReports(n: nat, crc: FlowTuple -> nat, events: seq<Event>, h: nat)
    requires h < n
    requires Epoch(Run(n, crc, events).log, h) != []
    requires AllPositive(Lengths(Epoch(Run(n, crc, events).log, h)))
    ensures var s := Run(n, crc, events).device.slots[h];
            var packets := Epoch(Run(n, crc, events).log, h);
            && s.record.stats.packets == |packets| % VALUES
            && s.record.stats.bytes == Total(Lengths(packets)) % VALUES
            && IsLeast(s.record.stats.length.min, Lengths(packets))
            && IsGreatest(s.record.stats.length.max, Lengths(packets))
            && s.record.stats.length.mean == Smoothed(Lengths(packets))
            && s.record.stats.length.min <= s.record.stats.length.mean <= s.record.stats.length.max
            && s.record.gaps.last == packets[|packets| - 1].timestamp
            && (|packets| <= VALUES ==> s.record.first == packets[0].timestamp)
  {
    hide *;
    var w := Run(n, crc, events);
    RunCounts(n, crc, events, h);
    RecordReports(w.device.slots[h].record, Epoch(w.log, h));
  }

  /** An event changes at most the slot its verdict names, and a packet only the
      slot its flow hashes to. */
  lemma OnlyOwnSlotChanges(w: World, crc: FlowTuple -> nat, e: Event, h: nat)
    requires h < |w.device.slots|
    requires match e
             case Export(k) => k != h
             case Arrival(f) => if IsControl(f) then f.flowHash != h else IndexOf(|w.device.slots|, crc, f) != h
    ensures Next(w, crc, e).device.slots[h] == w.device.slots[h]
  {
    assert !Touches(Judge(w.device.slots, crc, e), h);
  }

  // -------------------------------------------------------------------------
  // Conservation of packets
  // -------------------------------------------------------------------------

  ghost function Offered(events: seq<Event>): nat {
    if events == [] then 0 else
    var e := events[|events| - 1];
    Offered(events[..|events| - 1]) + if e.Arrival? && Monitored(e.frame) then 1 else 0
  }

  ghost function Counted(slots: seq<Slot>): nat {
    if slots == [] then 0 else slots[0].counted + Counted(slots[1..])
  }

  ghost function Registrations(log: seq<Verdict>): nat {
    if log == [] then 0 else
    var v := log[|log| - 1];
    Registrations(log[..|log| - 1]) + if Registers(v) then 1 else 0
  }

  lemma {:induction false} CountedAfterWrite(slots: seq<Slot>, h: nat, s: Slot)
    requires h < |slots|
    ensures Counted(slots[h := s]) == Counted(slots) - slots[h].counted + s.counted
  {
    if h == 0 {
      assert slots[0 := s][1..] == slots[1..];
    } else {
      assert slots[h := s][1..] == slots[1..][h - 1 := s];
      CountedAfterWrite(slots[1..], h - 1, s);
    }
  }

  lemma {:induction false} CountedWhenFresh(slots: seq<Slot>)
    requires forall h :: 0 <= h < |slots| ==> slots[h] == EMPTY_SLOT
    ensures Counted(slots) == 0
  {
    if slots != [] {
      CountedWhenFresh(slots[1..]);
    }
  }

  /** Every IPv4 packet past the TTL gate is counted exactly once: in its slot or
      as a hash collision. The flow counter counts the registrations. */
  lemma {:induction false} PacketsAreConserved(n: nat, crc: FlowTuple -> nat, events: seq<Event>)
    requires n > 0
    ensures var w := Run(n, crc, events);
            && Offered(events) == Counted(w.device.slots) + w.device.collisions
            && w.device.registrations == Registrations(w.log)
  {
    if events == [] {
      CountedWhenFresh(Fresh(n).slots);
    } else {
      var before, e := Run(n, crc, events[..|events| - 1]), events[|events| - 1];
      PacketsAreConserved(n, crc, events[..|events| - 1]);
      NextConserves(before, crc, e);
    }
  }

  lemma NextConserves(w: World, crc: FlowTuple -> nat, e: Event)
    requires |w.device.slots| > 0
    ensures var after := Next(w, crc, e);
            && Counted(after.device.slots) + after.device.collisions
               == Counted(w.device.slots) + w.device.collisions + (if e.Arrival? && Monitored(e.frame) then 1 else 0)
            && after.device.registrations - w.device.registrations == Registrations(after.log) - Registrations(w.log)
  {
    var d, v := w.device, Judge(w.device.slots, crc, e);
    assert (w.log + [v])[..|w.log|] == w.log;
    OfferedIsJudged(d.slots, crc, e);
    hide Judge, Counted;
    PerformConserves(d, v);
  }

  /** Exactly the packets past the TTL gate are accepted or collide, in an existing slot. */
  lemma OfferedIsJudged(slots: seq<Slot>, crc: FlowTuple -> nat, e: Event)
    requires |slots| > 0
    ensures var v := Judge(slots, crc, e);
            && (Accepts(v) || v.Collided? <==> e.Arrival? && Monitored(e.frame))
            && (Accepts(v) ==> v.slot < |slots|)
  {
  }

  lemma PerformConserves(d: Device, v: Verdict)
    requires Accepts(v) ==> v.slot < |d.slots|
    ensures Counted(Perform(d, v).slots) + Perform(d, v).collisions
            == Counted(d.slots) + d.collisions + (if Accepts(v) || v.Collided? then 1 else 0)
  {
    if !v.Passed? && !v.Dropped? && v.slot < |d.slots| {
      CountedAfterWrite(d.slots, v.slot, Touched(d.slots[v.slot], v));
    }
  }

  // -------------------------------------------------------------------------
  // Bounded inter-arrival times
  // -------------------------------------------------------------------------

  ghost predicate Ordered(e: Extremes) {
    e.min <= e.max && e.mean <= e.max < TIMESTAMPS
  }

  /** A free slot that was reset, or an occupied slot without a recorded gap above
      the inactive timeout. */
  ghost predicate Timely(s: Slot) {
    && Ordered(s.record.gaps.gap)
    && s.record.gaps.gap.max <= INACTIVE_TIMEOUT
    && (!s.occupied ==> s.record.gaps == NO_GAPS)
  }

  lemma ArrivalKeepsOrder(g: GapStats, now: Bit56)
    requires Ordered(g.gap)
    ensures Ordered(AddArrival(g, now).gap)
    ensures AddArrival(g, now).gap.max <= Max(g.gap.max, Elapsed(now, g.last))
    ensures g == NO_GAPS ==> AddArrival(g, now).gap == NONE
    ensures g.last != 0 ==> Elapsed(now, g.last) <= AddArrival(g, now).gap.max
  {
    WidthsAreExact();
    var current: nat := if g.last != 0 then Elapsed(now, g.last) else 0;
    AverageIsExact(TIMESTAMP_WIDTH, SHIFT, g.gap.mean, current);
  }

  lemma TouchedKeepsOrder(s: Slot, v: Verdict)
    requires Ordered(s.record.gaps.gap)
    ensures Ordered(Touched(s, v).record.gaps.gap)
  {
    if Accepts(v) {
      ArrivalKeepsOrder(if Clears(v) then NO_GAPS else s.record.gaps, v.frame.pm.timestamp);
    }
  }

  lemma TouchedKeepsTimely(s: Slot, v: Verdict)
    requires Timely(s) && !v.Exported?
    requires v.Registered? ==> !s.occupied
    requires v.Continued? ==> s.occupied && !TimedOut(s, v.frame)
    requires v.Restarted? ==> s.occupied
    ensures Timely(Touched(s, v))
  {
    if Accepts(v) {
      ArrivalKeepsOrder(if Clears(v) then NO_GAPS else s.record.gaps, v.frame.pm.timestamp);
    }
  }

  /** In every run the inter-arrival minimum and mean never exceed the maximum. */
  lemma {:induction false} GapsAreOrdered(n: nat, crc: FlowTuple -> nat, events: seq<Event>)
    requires n > 0
    ensures forall h :: 0 <= h < n ==> Ordered(Run(n, crc, events).device.slots[h].record.gaps.gap)
  {
    if events != [] {
      var before, e := Run(n, crc, events[..|events| - 1]), events[|events| - 1];
      GapsAreOrdered(n, crc, events[..|events| - 1]);
      forall h | 0 <= h < n
        ensures Ordered(Run(n, crc, events).device.slots[h].record.gaps.gap)
      {
        TouchedKeepsOrder(before.device.slots[h], Judge(before.device.slots, crc, e));
      }
    }
  }

  ghost predicate ExportFree(events: seq<Event>) {
    forall e :: e in events ==> e.Arrival?
  }

  /** Without exports no recorded inter-arrival time exceeds the inactive timeout,
      however the timestamps jump or wrap: a longer gap resets the slot first. */
  lemma {:induction false} GapsStayBelowTimeout(n: nat, crc: FlowTuple -> nat, events: seq<Event>)
    requires n > 0 && ExportFree(events)
    ensures forall h :: 0 <= h < n ==> Timely(Run(n, crc, events).device.slots[h])
  {
    if events != [] {
      var front, e := events[..|events| - 1], events[|events| - 1];
      assert e in events;
      assert forall x :: x in front ==> x in events;
      GapsStayBelowTimeout(n, crc, front);
      var before := Run(n, crc, front);
      var v := Judge(before.device.slots, crc, e);
      forall h | 0 <= h < n
        ensures Timely(Run(n, crc, events).device.slots[h])
      {
        if Touches(v, h) {
          TouchedKeepsTimely(before.device.slots[h], v);
        }
      }
    }
  }

  /** A packet recorded on these registers as they are keeps the bound: it comes within
      the timeout of the last one, or no last timestamp and no gap are recorded. */
  predicate KeepsBound(g: GapStats, now: Bit56) {
    Elapsed(now, g.last) <= INACTIVE_TIMEOUT || (g.last == 0 && g.gap.max == 0)
  }

  /** The exact condition for one recorded packet. */
  lemma BoundKeptIff(s: Slot, f: Frame)
    requires Ordered(s.record.gaps.gap) && s.record.gaps.gap.max <= INACTIVE_TIMEOUT
    ensures Updated(s, f.pm).record.gaps.gap.max <= INACTIVE_TIMEOUT <==> KeepsBound(s.record.gaps, f.pm.timestamp)
  {
    ArrivalKeepsOrder(s.record.gaps, f.pm.timestamp);
  }

  ghost predicate Bounded(slots: seq<Slot>) {
    forall h :: 0 <= h < |slots| ==> slots[h].record.gaps.gap.max <= INACTIVE_TIMEOUT
  }

  /** A packet registers on a free slot whose leftover registers it does not suit. */
  predicate RegistersLate(slots: seq<Slot>, v: Verdict) {
    v.Registered? && v.slot < |slots| && !KeepsBound(slots[v.slot].record.gaps, v.frame.pm.timestamp)
  }

  lemma TouchedBoundIff(s: Slot, v: Verdict)
    requires Ordered(s.record.gaps.gap) && s.record.gaps.gap.max <= INACTIVE_TIMEOUT
    requires v.Continued? ==> !TimedOut(s, v.frame)
    ensures Touched(s, v).record.gaps.gap.max <= INACTIVE_TIMEOUT
            <==> !(v.Registered? && !KeepsBound(s.record.gaps, v.frame.pm.timestamp))
  {
    if Accepts(v) {
      var placed := Placed(s, v);
      assert placed.record == if Clears(v) then NO_RECORD else s.record;
      BoundKeptIff(placed, v.frame);
    }
  }

  lemma ContinuedInTime(slots: seq<Slot>, crc: FlowTuple -> nat, e: Event)
    requires |slots| > 0
    ensures var v := Judge(slots, crc, e);
            && (v.Registered? ==> v.slot < |slots|)
            && (v.Continued? ==> v.slot < |slots| && !TimedOut(slots[v.slot], v.frame))
  {
  }

  lemma NextBoundIff(w: World, crc: FlowTuple -> nat, e: Event)
    requires |w.device.slots| > 0 && Bounded(w.device.slots)
    requires forall h :: 0 <= h < |w.device.slots| ==> Ordered(w.device.slots[h].record.gaps.gap)
    ensures Bounded(Next(w, crc, e).device.slots) <==> !RegistersLate(w.device.slots, Judge(w.device.slots, crc, e))
  {
    var slots, v := w.device.slots, Judge(w.device.slots, crc, e);
    ContinuedInTime(slots, crc, e);
    hide Judge, Touched, KeepsBound, TimedOut;
    var after := Next(w, crc, e).device.slots;
    forall h | 0 <= h < |slots|
      ensures Touches(v, h) && RegistersLate(slots, v) ==> after[h].record.gaps.gap.max > INACTIVE_TIMEOUT
      ensures !RegistersLate(slots, v) ==> after[h].record.gaps.gap.max <= INACTIVE_TIMEOUT
    {
      NextSlot(w, crc, e, h);
      if Touches(v, h) {
        TouchedBoundIff(slots[h], v);
      }
    }
    assert RegistersLate(slots, v) ==> Touches(v, v.slot);
  }

  ghost predicate AlwaysBounded(n: nat, crc: FlowTuple -> nat, events: seq<Event>)
    requires n > 0
  {
    Bounded(Run(n, crc, events).device.slots) && (events != [] ==> AlwaysBounded(n, crc, events[..|events| - 1]))
  }

  ghost predicate NeverLate(n: nat, crc: FlowTuple -> nat, events: seq<Event>)
    requires n > 0
  {
    events == [] ||
    var before := Run(n, crc, events[..|events| - 1]).device.slots;
    NeverLate(n, crc, events[..|events| - 1]) && !RegistersLate(before, Judge(before, crc, events[|events| - 1]))
  }

  /** In any run, exports included, no slot ever records a gap above the inactive timeout
      exactly if no packet registers late on the registers an export left behind. */
  lemma {:induction false} BoundKeptInRunIff(n: nat, crc: FlowTuple -> nat, events: seq<Event>)
    requires n > 0
    ensures AlwaysBounded(n, crc, events) <==> NeverLate(n, crc, events)
  {
    if events != [] {
      var before := Run(n, crc, events[..|events| - 1]);
      BoundKeptInRunIff(n, crc, events[..|events| - 1]);
      GapsAreOrdered(n, crc, events[..|events| - 1]);
      if AlwaysBounded(n, crc, events[..|events| - 1]) {
        NextBoundIff(before, crc, events[|events| - 1]);
      }
    }
  }

  function PacketAt(timestamp: Bit56): Frame {
    Frame(ETHERTYPE_IPV4, 1, true, 0, 0, true, 64, FlowTuple(1, 2, 3, 4, 17), None, Sample(100, timestamp))
  }

  /** An export between two packets 17 s apart leaves a 17 s gap in the record: the
      slot is free when the second packet comes, so nothing resets it. */
  lemma ExportLetsLongGapIn(crc: FlowTuple -> nat)
    ensures Run(1, crc, [Arrival(PacketAt(1)), Export(0), Arrival(PacketAt(17000001))]).device.slots[0].record.gaps.gap.max == 17000000
  {
    var e0, e1, e2 := Arrival(PacketAt(1)), Export(0), Arrival(PacketAt(17000001));
    assert [] + [e0] == [e0] && [e0] + [e1] == [e0, e1] && [e0, e1] + [e2] == [e0, e1, e2];
    RunAppends(1, crc, [], e0);
    RunAppends(1, crc, [e0], e1);
    RunAppends(1, crc, [e0, e1], e2);
    FirstPacket(crc);
    var w1 := Run(1, crc, [e0]);
    NextSlot(w1, crc, e1, 0);
    var w2 := Next(w1, crc, e1);
    NextSlot(w2, crc, e2, 0);
  }

  lemma FirstPacket(crc: FlowTuple -> nat)
    ensures var s := Next(Run(1, crc, []), crc, Arrival(PacketAt(1))).device.slots[0];
            s.occupied && s.record.gaps == GapStats(1, NONE)
  {
    ArrivalAbsorbs(NO_GAPS, 1);
    NextSlot(Run(1, crc, []), crc, Arrival(PacketAt(1)), 0);
  }

  // -------------------------------------------------------------------------
  // Registered flows
  // -------------------------------------------------------------------------

  /** Whatever freed a slot, the next monitored packet that hashes to it registers its
      own 5-tuple there; its repetition inside the timeout, outside VXLAN, goes on. */
  lemma FreedSlotIsTakenNext(w: World, crc: FlowTuple -> nat, e: Event, f: Frame)
    requires |w.device.slots| > 0 && Monitored(f)
    requires var h := IndexOf(|w.device.slots|, crc, f);
             match e
             case Export(k) => k == h
             case Arrival(c) => IsControl(c) && c.reason == IDLE_TIMEOUT && c.flowHash == h
    ensures var h := IndexOf(|w.device.slots|, crc, f);
            var freed := Next(w, crc, e);
            var taken := Next(freed, crc, Arrival(f));
            && Judge(freed.device.slots, crc, Arrival(f)) == Registered(h, f)
            && taken.device.slots[h].occupied && taken.device.slots[h].tuple == Key(f)
            && (f.vxlan.None? ==> Judge(taken.device.slots, crc, Arrival(f)) == Continued(h, f))
  {
    var h := IndexOf(|w.device.slots|, crc, f);
    NextSlot(w, crc, e, h);
    var freed := Next(w, crc, e);
    assert !freed.device.slots[h].occupied;
    NextSlot(freed, crc, Arrival(f), h);
    var taken := Next(freed, crc, Arrival(f));
    assert taken.device.slots[h].record.gaps.last == f.pm.timestamp;
    if f.vxlan.None? {
      RegisteredFlowRejectedIff(taken.device.slots, crc, f);
    }
  }

  /** A packet with the registered 5-tuple inside the timeout is rejected exactly if
      it is a VXLAN packet whose inner protocol differs from the outer one. */
  lemma RegisteredFlowRejectedIff(slots: seq<Slot>, crc: FlowTuple -> nat, f: Frame)
    requires |slots| > 0 && Monitored(f)
    requires var s := slots[IndexOf(|slots|, crc, f)];
             s.occupied && s.tuple == Key(f) && !TimedOut(s, f)
    ensures Judge(slots, crc, Arrival(f)).Collided? <==> f.vxlan.Some? && f.vxlan.value.protocol != f.outer.protocol
    ensures !Judge(slots, crc, Arrival(f)).Collided? ==> Judge(slots, crc, Arrival(f)) == Continued(IndexOf(|slots|, crc, f), f)
  {
  }

  /** So every packet after the first of a TCP flow inside VXLAN, sent within the
      timeout, is counted as a hash collision, whatever the CRC. */
  lemma TunnelledTcpCollides(n: nat, crc: FlowTuple -> nat, f: Frame)
    requires n > 0 && Monitored(f)
    requires f.outer.protocol == 17 && f.vxlan.Some? && f.vxlan.value.protocol == 6
    ensures Run(n, crc, [Arrival(f), Arrival(f)]).log == [Registered(IndexOf(n, crc, f), f), Collided(IndexOf(n, crc, f), f)]
  {
    var e := Arrival(f);
    assert [e, e][..1] == [e] && [e][..0] == [];
    var w0 := Run(n, crc, []);
    var w1 := Next(w0, crc, e);
    var s := w1.device.slots[IndexOf(n, crc, f)];
    assert s.occupied && s.tuple == Key(f) && s.record.gaps.last == f.pm.timestamp;
    RegisteredFlowRejectedIff(w1.device.slots, crc, f);
    assert Run(n, crc, [e]) == w1;
  }

  /** Every packet counted since the last registration agrees with the registered
      5-tuple on the unordered address pair and port pair. */
  lemma CountedPacketsAgree(n: nat, crc: FlowTuple -> nat, events: seq<Event>, h: nat)
    requires h < n
    ensures var w := Run(n, crc, events);
            var t := w.device.slots[h].tuple;
            forall f :: f in Conversation(w.log, h) ==>
              && SamePair(Key(f).src, Key(f).dst, t.src, t.dst)
              && SamePair(Key(f).srcPort, Key(f).dstPort, t.srcPort, t.dstPort)
  {
    RunFollows(n, crc, events);
  }

  // -------------------------------------------------------------------------
  // Flow duration
  // -------------------------------------------------------------------------

  /** meta.feature_meta.flow_duration: computed before the first timestamp is
      written. */
  function Duration(s: Slot, p: Sample): Bit56 {
    Elapsed(p.timestamp, s.record.first)
  }

  ghost predicate Increasing(h: History) {
    PositiveTimes(h) && forall i, j :: 0 <= i < j < |h| ==> h[i].timestamp < h[j].timestamp
  }

  lemma {:induction false} GapsAddUp(h: History)
    requires Increasing(h) && h != []
    ensures Total(Gaps(h)) == h[|h| - 1].timestamp - h[0].timestamp
  {
    if |h| > 1 {
      var front := h[..|h| - 1];
      assert h == front + [h[|h| - 1]];
      GapsAddUp(front);
      GapsAppend(front, h[|h| - 1]);
      TotalAppends(Gaps(front), Elapsed(h[|h| - 1].timestamp, front[|front| - 1].timestamp));
    }
  }

  lemma TimesOneMore(n: nat, v: nat)
    ensures (n + 1) * v == n * v + v
  {
  }

  lemma {:induction false} TotalBetween(values: seq<nat>, lo: nat, hi: nat)
    requires forall v :: v in values ==> lo <= v <= hi
    ensures |values| * lo <= Total(values) <= |values| * hi
  {
    if values != [] {
      var front, last := values[..|values| - 1], values[|values| - 1];
      assert last in values && forall v :: v in front ==> v in values;
      TotalBetween(front, lo, hi);
      TimesOneMore(|front|, lo);
      TimesOneMore(|front|, hi);
      assert |values| == |front| + 1 && Total(values) == Total(front) + last;
    }
  }

  lemma PositiveGaps(h: History)
    requires Increasing(h)
    ensures AllPositive(Gaps(h))
  {
    forall v | v in Gaps(h)
      ensures v > 0
    {
      var i :| 0 <= i < |Gaps(h)| && Gaps(h)[i] == v;
      assert h[i].timestamp < h[i + 1].timestamp;
    }
  }

  lemma GapRange(g: GapStats, h: History)
    requires CountsGaps(g, h) && Increasing(h) && |h| >= 2
    ensures (|h| - 1) * g.gap.min <= Total(Gaps(h)) <= (|h| - 1) * g.gap.max
  {
    PositiveGaps(h);
    assert AfterLastZero(Gaps(h)) == Gaps(h);
    TotalBetween(Gaps(h), g.gap.min, g.gap.max);
  }

  /** When the packets of an epoch carry increasing timestamps, the duration reported
      for the newest one is the sum of the inter-arrival times, between the
      packet distance times the recorded minimum and times the maximum. */
  lemma DurationIsSumOfGaps(s: Slot, history: History, p: Sample)
    requires Counts(s.record, history) && 1 <= |history| <= VALUES
    requires Increasing(history + [p])
    ensures Duration(s, p) == Total(Gaps(history + [p]))
    ensures var gap := Updated(s, p).record.gaps.gap;
            |history| * gap.min <= Duration(s, p) <= |history| * gap.max
  {
    var all := history + [p];
    assert all[0] == history[0];
    StartIsFirst(s.record.first, history);
    GapsAddUp(all);
    AddArrivalCounts(s.record.gaps, history, p);
    GapRange(Updated(s, p).record.gaps, all);
  }

  /** A packet accepted without a reset extends the epoch of its slot. */
  lemma ExtendingPacket(w: World, crc: FlowTuple -> nat, f: Frame)
    requires |w.device.slots| > 0
    requires var v := Judge(w.device.slots, crc, Arrival(f)); Accepts(v) && !v.Restarted?
    ensures var h, after := IndexOf(|w.device.slots|, crc, f), Next(w, crc, Arrival(f));
            && after.device.slots[h].record == Updated(w.device.slots[h], f.pm).record
            && Epoch(after.log, h) == Epoch(w.log, h) + [f.pm]
  {
    var h, v := IndexOf(|w.device.slots|, crc, f), Judge(w.device.slots, crc, Arrival(f));
    assert Touches(v, h) && v.frame == f && !Clears(v);
    NextSlot(w, crc, Arrival(f), h);
    LogAppends(w.log, v, h);
    hide Judge, Epoch, Next, IndexOf;
  }

  /** So in every run: the duration reported for a packet that extends an epoch is the
      sum of the inter-arrival times of the packets counted in its slot since the last
      reset, and the slot's extremes bound it. */
  lemma RunDurationIsSumOfGaps(n: nat, crc: FlowTuple -> nat, events: seq<Event>, f: Frame)
    requires n > 0
    requires var w := Run(n, crc, events);
             var h := IndexOf(n, crc, f);
             var packets, v := Epoch(w.log, h), Judge(w.device.slots, crc, Arrival(f));
             && Accepts(v) && !v.Restarted?
             && 1 <= |packets| <= VALUES && Increasing(packets + [f.pm])
    ensures var w := Run(n, crc, events);
            var h := IndexOf(n, crc, f);
            var packets, after := Epoch(w.log, h), Run(n, crc, events + [Arrival(f)]);
            && Epoch(after.log, h) == packets + [f.pm]
            && Duration(w.device.slots[h], f.pm) == Total(Gaps(Epoch(after.log, h)))
            && var gap := after.device.slots[h].record.gaps.gap;
            && |packets| * gap.min <= Duration(w.device.slots[h], f.pm) <= |packets| * gap.max
  {
    var w, h := Run(n, crc, events), IndexOf(n, crc, f);
    RunCounts(n, crc, events, h);
    RunAppends(n, crc, events, Arrival(f));
    ExtendingPacket(w, crc, f);
    hide *;
    DurationIsSumOfGaps(w.device.slots[h], Epoch(w.log, h), f.pm);
  }
}
