/** What the ingress does with one packet, in terms of the registers and the packet's
    fields alone. */
module FlowAdmission {
  import opened FlowStatistics
  import opened FlowMonitor

  lemma ElapsedWraps(now: Bit56, before: Bit56)
    ensures Elapsed(now, before) == if now >= before then now - before else 0x100_0000_0000_0000 - (before - now)
  {
  }

  /** The two hosts, or the two ports, are the same in any order. */
  lemma SamePairIff(a: nat, b: nat, c: nat, d: nat)
    ensures SamePair(a, b, c, d) <==> multiset{a, b} == multiset{c, d}
  {
    if multiset{a, b} == multiset{c, d} {
      assert a in multiset{c, d} && b in multiset{c, d};
      assert multiset{a, b}[a] == multiset{c, d}[a];
    }
  }

  /** The registered flow, as far as the ingress compares it: addresses and ports of the
      inner packet under VXLAN, always the outer protocol. */
  ghost predicate IsRegistered(f: Frame, t: FlowTuple) {
    var k := if f.vxlan.Some? then f.vxlan.value else f.outer;
    && multiset{k.src, k.dst} == multiset{t.src, t.dst}
    && multiset{k.srcPort, k.dstPort} == multiset{t.srcPort, t.dstPort}
    && f.outer.protocol == t.protocol
  }

  lemma CollidesIff(f: Frame, t: FlowTuple)
    ensures Collides(f, t) <==> !IsRegistered(f, t)
  {
    SamePairIff(Key(f).src, Key(f).dst, t.src, t.dst);
    SamePairIff(Key(f).srcPort, Key(f).dstPort, t.srcPort, t.dstPort);
    hide SamePair;
  }

  /** More than 16 s after the last packet of the slot, on the wrapping clock. */
  predicate IsLate(s: Slot, f: Frame) {
    var now, last := f.pm.timestamp, s.record.gaps.last;
    (if now >= last then now - last else 0x100_0000_0000_0000 - (last - now)) > 16_000_000
  }

  /** Whatever the statistics counted before, they count one more packet. */
  ghost predicate CountsOneMore(s: Slot, n: Slot, p: Sample) {
    n.counted == s.counted + 1 && forall history :: Counts(s.record, history) ==> Counts(n.record, history + [p])
  }

  lemma ExtendedCountsOneMore(s: Slot, n: Slot, p: Sample)
    requires n.counted == s.counted + 1 && n.record == Extend(s.record, p)
    ensures CountsOneMore(s, n, p)
  {
    hide Counts, Extend;
    forall history | Counts(s.record, history)
      ensures Counts(n.record, history + [p])
    {
      ExtendCounts(s.record, history, p);
    }
  }

  /** IPv4 packets that get past the TTL gate, by their fields. */
  predicate IsCounted(f: Frame) {
    f.etherType == 0x0800 && f.normal && f.ipv4Valid && f.ttl >= 2
  }

  lemma CountedIsMonitored(f: Frame)
    ensures IsCounted(f) <==> Monitored(f)
  {
  }

  /** A free slot is taken by the next packet, on top of the statistics left there. */
  lemma FreeSlotIsTaken(w: World, crc: FlowTuple -> nat, f: Frame)
    requires |w.device.slots| > 0 && IsCounted(f)
    requires !w.device.slots[crc(Key(f)) % |w.device.slots|].occupied
    ensures var h := crc(Key(f)) % |w.device.slots|;
            var before, after := w.device, Next(w, crc, Arrival(f)).device;
            && after.slots[h].occupied && after.slots[h].tuple == Key(f)
            && CountsOneMore(before.slots[h], after.slots[h], f.pm)
            && after.registrations == before.registrations + 1 && after.collisions == before.collisions
            && after.lastTimestamp == f.pm.timestamp
  {
    CountedIsMonitored(f);
    var h := IndexOf(|w.device.slots|, crc, f);
    NextSlot(w, crc, Arrival(f), h);
    var s, n := w.device.slots[h], Next(w, crc, Arrival(f)).device.slots[h];
    assert n.counted == s.counted + 1 && n.record == Extend(s.record, f.pm);
    ExtendedCountsOneMore(s, n, f.pm);
    hide CountsOneMore, Extend, Counts;
  }

  lemma LateIsTimedOut(s: Slot, f: Frame)
    ensures IsLate(s, f) <==> TimedOut(s, f)
  {
    ElapsedWraps(f.pm.timestamp, s.record.gaps.last);
    hide Elapsed;
  }

  lemma RestartCounts(p: Sample)
    ensures Counts(Extend(NO_RECORD, p), [p])
  {
    EmptyCounts();
    assert [] + [p] == [p];
    hide Counts, Extend;
    ExtendCounts(NO_RECORD, [], p);
  }

  /** The flow in an occupied slot is replaced by the packet's own, whichever that is,
      exactly if the packet comes more than 16 s after the last one: the slot then counts
      this packet alone, and no collision is counted. */
  lemma TimedOutFlowIsReplacedIff(w: World, crc: FlowTuple -> nat, f: Frame)
    requires |w.device.slots| > 0 && IsCounted(f)
    requires w.device.slots[crc(Key(f)) % |w.device.slots|].occupied
    ensures var h := crc(Key(f)) % |w.device.slots|;
            var before, after := w.device, Next(w, crc, Arrival(f)).device;
            var s, n := before.slots[h], after.slots[h];
            && n.occupied
            && after.registrations == before.registrations + (if IsLate(s, f) then 1 else 0)
            && (IsLate(s, f) ==>
                  && n.tuple == Key(f) && Counts(n.record, [f.pm]) && n.counted == s.counted + 1
                  && after.collisions == before.collisions && after.lastTimestamp == f.pm.timestamp)
            && (!IsLate(s, f) ==> n.tuple == s.tuple)
  {
    CountedIsMonitored(f);
    var h := IndexOf(|w.device.slots|, crc, f);
    NextSlot(w, crc, Arrival(f), h);
    LateIsTimedOut(w.device.slots[h], f);
    RestartCounts(f.pm);
    hide Counts, Extend, IsLate, TimedOut, Collides;
  }

  /** Within the 16 s a packet is counted in the slot if it belongs to the registered flow, in
      either direction, and as a collision that changes no slot if it does not. */
  lemma InTimePacketIsCountedIff(w: World, crc: FlowTuple -> nat, f: Frame)
    requires |w.device.slots| > 0 && IsCounted(f)
    requires var s := w.device.slots[crc(Key(f)) % |w.device.slots|]; s.occupied && !IsLate(s, f)
    ensures var h := crc(Key(f)) % |w.device.slots|;
            var before, after := w.device, Next(w, crc, Arrival(f)).device;
            var s, n := before.slots[h], after.slots[h];
            if IsRegistered(f, s.tuple) then
              && CountsOneMore(s, n, f.pm) && after.collisions == before.collisions
              && after.lastTimestamp == f.pm.timestamp
            else
              && after.slots == before.slots && after.collisions == before.collisions + 1
              && after.lastTimestamp == before.lastTimestamp
  {
    CountedIsMonitored(f);
    var h := IndexOf(|w.device.slots|, crc, f);
    NextSlot(w, crc, Arrival(f), h);
    var s, n := w.device.slots[h], Next(w, crc, Arrival(f)).device.slots[h];
    LateIsTimedOut(s, f);
    CollidesIff(f, s.tuple);
    hide Counts, IsLate, TimedOut, Collides, IsRegistered;
    if IsRegistered(f, s.tuple) {
      ExtendedCountsOneMore(s, n, f.pm);
      hide CountsOneMore, Extend;
    }
  }

  /** An idle-timeout message from the CPU port. */
  predicate IsIdleMessage(f: Frame) {
    f.etherType == 0x4242 && f.ingressPort == 510 && f.reason == 0
  }

  /** Every other packet leaves the registers alone, but for an idle-timeout message, which
      frees the slot it names and forgets everything counted there. */
  lemma OtherPacketsResetIff(w: World, crc: FlowTuple -> nat, f: Frame, h: nat)
    requires h < |w.device.slots| && !IsCounted(f)
    ensures var before, after := w.device, Next(w, crc, Arrival(f)).device;
            && after.registrations == before.registrations && after.collisions == before.collisions
            && after.lastTimestamp == before.lastTimestamp
            && (if IsIdleMessage(f) && f.flowHash == h then
                  && !after.slots[h].occupied && after.slots[h].tuple == FlowTuple(0, 0, 0, 0, 0)
                  && Counts(after.slots[h].record, []) && after.slots[h].counted == before.slots[h].counted
                else after.slots[h] == before.slots[h])
  {
    CountedIsMonitored(f);
    NextSlot(w, crc, Arrival(f), h);
    EmptyCounts();
    hide Counts, Extend, TimedOut, Collides;
  }
}
