/** The ingress and export controls as they run: register arrays read and written
    in place, one packet at a time. The switch is always the one the run of
    FlowMonitor reaches on the events received so far, so everything proved
    about runs holds for it. */
module FlowSwitch {
  import opened EtherTypes
  import opened MovingAverage
  import opened FlowStatistics
  import opened FlowMonitor

  /** The flow_record_data header of an export. */
  datatype FlowRecord = FlowRecord(
    condition: nat, tuple: FlowTuple,
    start: Bit56, end: Bit56,
    packets: Bit32, bytes: Bit32,
    length: Extremes, gap: Extremes)

  const ACTIVE_TIMEOUT_HIT := 0

  class FlowTable {
    /** All register arrays of length FLOW_MONITORING_SLOTS, index by index. */
    const slots: array<Slot>
    const crc: FlowTuple -> nat
    var collisions: nat
    var registrations: nat
    var lastTimestamp: Bit56
    ghost var events: seq<Event>

    ghost function Snapshot(): Device
      reads this, slots
    {
      Device(slots[..], collisions, registrations, lastTimestamp)
    }

    ghost predicate Valid()
      reads this, slots
    {
      && slots.Length > 0
      && Snapshot() == Run(slots.Length, crc, events).device
    }

    constructor (n: nat, crc: FlowTuple -> nat)
      requires n > 0
      ensures Valid() && fresh(slots)
      ensures slots.Length == n && this.crc == crc && events == []
    {
      slots := new Slot[n](_ => EMPTY_SLOT);
      this.crc := crc;
      collisions, registrations, lastTimestamp := 0, 0, 0;
      events := [];
      new;
      assert slots[..] == Fresh(n).slots;
    }

    /** FlowDataResetter: writes zero to every register of the flow. */
    method ResetFlowData(h: nat)
      requires h < slots.Length
      modifies slots
      ensures slots[..] == old(slots[..])[h := Cleared(old(slots[h]))]
    {
      slots[h] := slots[h].(tuple := NO_TUPLE);
      var none := Extremes(0, 0, 0);
      var r := slots[h].record;
      slots[h] := slots[h].(record := r.(stats := r.stats.(length := none)));
      slots[h] := slots[h].(record := slots[h].record.(gaps := GapStats(0, none)));
      r := slots[h].record;
      slots[h] := slots[h].(record := r.(stats := r.stats.(bytes := 0, packets := 0)));
      slots[h] := slots[h].(record := slots[h].record.(first := 0));
    }

    method RegisterFlow5Tuple(h: nat, f: Frame)
      requires h < slots.Length
      modifies slots
      ensures slots[..] == old(slots[..])[h := old(slots[h]).(tuple := Key(f))]
    {
      match f.vxlan
      case Some(inner) =>
        slots[h] := slots[h].(tuple := FlowTuple(inner.src, inner.dst, inner.srcPort, inner.dstPort, inner.protocol));
      case None =>
        slots[h] := slots[h].(tuple := FlowTuple(f.outer.src, f.outer.dst, f.outer.srcPort, f.outer.dstPort, f.outer.protocol));
    }

    /** update_flow_data_action: packet length minimum, maximum, moving average. */
    method UpdateExtremes(before: Extremes, length: Bit32) returns (e: Extremes)
      ensures e == Absorb(VALUE_WIDTH, before, length)
    {
      e := before;
      if e.min == 0 || length < e.min {
        e := e.(min := length);
      }
      if length > e.max {
        e := e.(max := length);
      }
      var average := length;
      if e.mean != 0 {
        average := Weighted(VALUE_WIDTH, SHIFT, e.mean, length);
      }
      e := e.(mean := Wrap(average, VALUE_WIDTH));
    }

    /** update_flow_data_action: packet and byte counters, then the lengths. */
    method UpdateLengths(h: nat, length: Bit32)
      requires h < slots.Length
      modifies slots
      ensures var s := old(slots[h]);
              slots[..] == old(slots[..])[h := s.(counted := s.counted + 1, record := s.record.(stats := AddLength(s.record.stats, length)))]
    {
      hide Average;
      var s, stats := slots[h], slots[h].record.stats;
      var bytes := (stats.bytes + length) % VALUES;
      var packets := (stats.packets + 1) % VALUES;
      var e := UpdateExtremes(stats.length, length);
      assert LengthStats(packets, bytes, e) == AddLength(stats, length);
      hide AddLength, Absorb;
      slots[h] := s.(counted := s.counted + 1, record := s.record.(stats := LengthStats(packets, bytes, e)));
    }

    /** update_flow_data_action: inter-arrival time minimum, maximum, moving average. */
    method UpdateGaps(h: nat, now: Bit56)
      requires h < slots.Length
      modifies slots
      ensures var s := old(slots[h]);
              slots[..] == old(slots[..])[h := s.(record := s.record.(gaps := AddArrival(s.record.gaps, now)))]
    {
      var last, e := slots[h].record.gaps.last, slots[h].record.gaps.gap;
      var elapsed := Elapsed(now, last);
      if (e.min == 0 && last != 0) || elapsed < e.min {
        e := e.(min := elapsed);
      }
      if (e.max == 0 && last != 0) || (e.max != 0 && elapsed > e.max) {
        e := e.(max := elapsed);
      }
      var current: nat := 0;
      if last != 0 {
        current := elapsed;
      }
      var average := current;
      if e.mean != 0 {
        average := Weighted(TIMESTAMP_WIDTH, SHIFT, e.mean, current);
      }
      e := e.(mean := Wrap(average, TIMESTAMP_WIDTH));
      slots[h] := slots[h].(record := slots[h].record.(gaps := GapStats(now, e)));
    }

    /** FlowDataUpdater.apply; returns the reported flow duration. */
    method UpdateFlowData(h: nat, p: Sample) returns (duration: Bit56)
      requires h < slots.Length
      modifies slots, `lastTimestamp
      ensures slots[..] == old(slots[..])[h := Updated(old(slots[h]), p)]
      ensures lastTimestamp == p.timestamp
      ensures duration == Elapsed(p.timestamp, old(slots[h]).record.first)
    {
      lastTimestamp := p.timestamp;
      UpdateLengths(h, p.length);
      UpdateGaps(h, p.timestamp);
      duration := Elapsed(p.timestamp, slots[h].record.first);
      if slots[h].record.stats.packets == 1 {
        slots[h] := slots[h].(record := slots[h].record.(first := p.timestamp));
      }
    }

    method CheckFlowHashCollision(h: nat, f: Frame) returns (collision: bool)
      requires h < slots.Length
      ensures collision <==> Collides(f, slots[h].tuple)
    {
      var t := slots[h].tuple;
      if f.outer.protocol != t.protocol {
        return true;
      }
      var k := if f.vxlan.Some? then f.vxlan.value else f.outer;
      if !((k.src == t.src && k.dst == t.dst) || (k.src == t.dst && k.dst == t.src)) {
        return true;
      }
      if !((k.srcPort == t.srcPort && k.dstPort == t.dstPort) || (k.srcPort == t.dstPort && k.dstPort == t.srcPort)) {
        return true;
      }
      return false;
    }

    /** The occupancy, timeout and collision branches; a collision changes no slot. */
    method Admit(h: nat, f: Frame) returns (verdict: Verdict)
      requires slots.Length > 0 && Monitored(f) && h == IndexOf(slots.Length, crc, f)
      modifies this`collisions, this`registrations, slots
      ensures verdict == Judge(old(slots[..]), crc, Arrival(f))
      ensures slots[..] == old(slots[..])[h := Placed(old(slots[h]), verdict)]
      ensures collisions == old(collisions) + if verdict.Collided? then 1 else 0
      ensures registrations == old(registrations) + if Registers(verdict) then 1 else 0
    {
      if !slots[h].occupied {
        slots[h] := slots[h].(occupied := true);
        RegisterFlow5Tuple(h, f);
        registrations := registrations + 1;
        return Registered(h, f);
      }
      if Elapsed(f.pm.timestamp, slots[h].record.gaps.last) > INACTIVE_TIMEOUT {
        ResetFlowData(h);
        RegisterFlow5Tuple(h, f);
        registrations := registrations + 1;
        return Restarted(h, f);
      }
      var collision := CheckFlowHashCollision(h, f);
      if collision {
        collisions := collisions + 1;
        return Collided(h, f);
      }
      return Continued(h, f);
    }

    /** Flow monitoring proper, for packets past the TTL gate. */
    method Monitor(f: Frame) returns (verdict: Verdict)
      requires slots.Length > 0 && Monitored(f)
      modifies this`collisions, this`registrations, this`lastTimestamp, slots
      ensures verdict == Judge(old(slots[..]), crc, Arrival(f))
      ensures Snapshot() == Perform(old(Snapshot()), verdict)
    {
      hide Run, Absorb, AddLength, AddArrival, Extend, Key, Collides, Elapsed;
      ghost var before := slots[..];
      var h := IndexOf(slots.Length, crc, f);
      verdict := Admit(h, f);
      if !verdict.Collided? {
        var _ := UpdateFlowData(h, f.pm);
      }
      assert slots[..] == before[h := Touched(before[h], verdict)];
    }

    /** The ingress control on one packet. */
    method Ingress(f: Frame) returns (verdict: Verdict)
      requires Valid()
      modifies this, slots
      ensures Valid() && events == old(events) + [Arrival(f)]
      ensures verdict == Judge(old(slots[..]), crc, Arrival(f))
      ensures Snapshot() == Perform(old(Snapshot()), verdict)
    {
      ghost var before := Snapshot();
      if f.etherType == ETHERTYPE_FLOW_MONITORING && f.ingressPort == CPU_PORT {
        if f.reason == IDLE_TIMEOUT {
          verdict := IdleReset(f.flowHash);
          if f.flowHash < slots.Length {
            ResetFlowData(f.flowHash);
            slots[f.flowHash] := slots[f.flowHash].(occupied := false);
            assert slots[..] == before.slots[f.flowHash := Touched(before.slots[f.flowHash], verdict)];
          }
        } else {
          verdict := Dropped;
        }
      } else if f.normal && f.etherType == ETHERTYPE_IPV4 {
        if f.ipv4Valid && f.ttl > 1 {
          verdict := Monitor(f);
        } else {
          verdict := Dropped;
        }
      } else {
        verdict := Passed;
      }
      RunAppends(slots.Length, crc, events, Arrival(f));
      events := events + [Arrival(f)];
    }

    /** FlowDataExport.apply: a snapshot of the slot. Unless the active timeout was the
        reason the slot is free afterwards, but keeps its statistics. */
    method ExportFlow(h: nat, reason: nat) returns (record: FlowRecord)
      requires Valid() && h < slots.Length
      modifies this, slots
      ensures Valid()
      ensures events == old(events) + if reason == ACTIVE_TIMEOUT_HIT then [] else [Export(h)]
      ensures var s := old(slots[h]);
              slots[..] == old(slots[..])[h := s.(occupied := s.occupied && reason == ACTIVE_TIMEOUT_HIT)]
      ensures record.condition == reason && record.tuple == slots[h].tuple
      ensures Record(LengthStats(record.packets, record.bytes, record.length), record.start, GapStats(record.end, record.gap)) == old(slots[h]).record
    {
      ghost var before := Snapshot();
      var t, r := slots[h].tuple, slots[h].record;
      record := FlowRecord(reason, t, r.first, r.gaps.last, r.stats.packets, r.stats.bytes, r.stats.length, r.gaps.gap);
      if reason != ACTIVE_TIMEOUT_HIT {
        slots[h] := slots[h].(occupied := false);
        assert slots[..] == before.slots[h := Touched(before.slots[h], Exported(h))];
        RunAppends(slots.Length, crc, events, Export(h));
        events := events + [Export(h)];
      }
    }
  }
}
