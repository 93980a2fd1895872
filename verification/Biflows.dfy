/** The BIFLOWS build: every packet is also counted in the registers of its own
    direction. The ingress branches are those of FlowMonitor with another hash, so
    the registers here follow the verdicts of its runs. */
module Biflows {
  import opened EtherTypes
  import opened MovingAverage
  import opened Options
  import opened FlowStatistics
  import opened FlowMonitor
  import opened FlowSwitch

  datatype Direction = FORWARD | BACKWARD

  datatype BiSlot = BiSlot(tuple: FlowTuple, total: LengthStats, forward: LengthStats, backward: LengthStats)

  const EMPTY := BiSlot(NO_TUPLE, NO_LENGTHS, NO_LENGTHS, NO_LENGTHS)

  /** The hash input: addresses ordered, ports following their address. */
  function Normalised(t: FlowTuple): FlowTuple {
    if t.src > t.dst then FlowTuple(t.dst, t.src, t.dstPort, t.srcPort, t.protocol) else t
  }

  function Reversed(t: FlowTuple): FlowTuple {
    FlowTuple(t.dst, t.src, t.dstPort, t.srcPort, t.protocol)
  }

  /** Both directions of a flow are hashed alike unless a host talks to itself on
      two ports: equal addresses leave the ports unordered. */
  lemma DirectionsShareHashInputIff(t: FlowTuple)
    ensures (Normalised(t) == t || Normalised(t) == Reversed(t)) && Normalised(t).src <= Normalised(t).dst
    ensures Normalised(Reversed(t)) == Normalised(t) <==> t.src != t.dst || t.srcPort == t.dstPort
  {
  }

  /** determine_flow_direction compares the registered addresses with the outer
      IPv4 header, also under VXLAN. */
  function DirectionOf(t: FlowTuple, f: Frame): Direction {
    if t.src == f.outer.src && t.dst == f.outer.dst then FORWARD else BACKWARD
  }

  function Recorded(b: BiSlot, d: Direction, length: Bit32): BiSlot {
    b.(total := AddLength(b.total, length),
       forward := if d == FORWARD then AddLength(b.forward, length) else b.forward,
       backward := if d == BACKWARD then AddLength(b.backward, length) else b.backward)
  }

  /** The tuple by which the direction of a packet is judged: one it registers counts for
      its own direction already. */
  function PlacedFor(b: BiSlot, v: Verdict): BiSlot {
    var cleared := if Clears(v) then EMPTY else b;
    if Registers(v) then cleared.(tuple := Key(v.frame)) else cleared
  }

  function After(b: BiSlot, v: Verdict): BiSlot {
    var placed := PlacedFor(b, v);
    if Accepts(v) then Recorded(placed, DirectionOf(placed.tuple, v.frame), v.frame.pm.length) else placed
  }

  /** The direction registers of slot `h` after a sequence of verdicts. */
  function Replay(log: seq<Verdict>, h: nat): BiSlot {
    if log == [] then EMPTY else
    var before, v := Replay(log[..|log| - 1], h), log[|log| - 1];
    if Touches(v, h) then After(before, v) else before
  }

  // -------------------------------------------------------------------------
  // The directions add up
  // -------------------------------------------------------------------------

  function Sum32(a: int, b: int): Bit32 {
    (a + b) % VALUES
  }

  ghost predicate CountersAddUp(b: BiSlot) {
    && b.total.packets == Sum32(b.forward.packets, b.backward.packets)
    && b.total.bytes == Sum32(b.forward.bytes, b.backward.bytes)
    && b.total.length.max == Max(b.forward.length.max, b.backward.length.max)
  }

  /** Zero stands for a direction without packets. */
  ghost predicate MinimaMeet(b: BiSlot) {
    b.total.length.min ==
      if b.forward.length.min == 0 then b.backward.length.min
      else if b.backward.length.min == 0 then b.forward.length.min
      else Min(b.forward.length.min, b.backward.length.min)
  }

  lemma SumWraps(a: int, b: int, x: int)
    ensures Sum32(Sum32(a, b), x) == Sum32(Sum32(a, x), b) == Sum32(a, Sum32(b, x))
  {
    WrappedSum(a + b, x);
    WrappedSum(a + x, b);
    WrappedSum(b + x, a);
  }

  lemma RecordedExtremes(b: BiSlot, d: Direction, length: Bit32)
    requires b.total.length.max == Max(b.forward.length.max, b.backward.length.max)
    ensures var r := Recorded(b, d, length);
            r.total.length.max == Max(r.forward.length.max, r.backward.length.max)
    ensures MinimaMeet(b) && length > 0 ==> MinimaMeet(Recorded(b, d, length))
  {
  }

  lemma AddedCounters(s: LengthStats, length: Bit32)
    ensures AddLength(s, length).packets == Sum32(s.packets, 1)
    ensures AddLength(s, length).bytes == Sum32(s.bytes, length)
  {
  }

  lemma RecordedAddsUp(b: BiSlot, d: Direction, length: Bit32)
    requires CountersAddUp(b)
    ensures CountersAddUp(Recorded(b, d, length))
  {
    RecordedExtremes(b, d, length);
    AddedCounters(b.total, length);
    AddedCounters(if d == FORWARD then b.forward else b.backward, length);
    SumWraps(b.forward.packets, b.backward.packets, 1);
    SumWraps(b.forward.bytes, b.backward.bytes, length);
  }

  /** Exactly when one packet keeps the minima together: a packet of length zero clears
      the bidirectional minimum but only its own direction's. */
  lemma RecordedMinimaIff(b: BiSlot, d: Direction, length: Bit32)
    requires MinimaMeet(b)
    ensures MinimaMeet(Recorded(b, d, length)) <==>
            length > 0 || (if d == FORWARD then b.backward else b.forward).length.min == 0
  {
  }

  lemma ReplayAppends(log: seq<Verdict>, v: Verdict, h: nat)
    ensures Replay(log + [v], h) == if Touches(v, h) then After(Replay(log, h), v) else Replay(log, h)
  {
    assert (log + [v])[..|log|] == log;
  }

  lemma AfterAddsUp(b: BiSlot, v: Verdict)
    requires CountersAddUp(b)
    ensures CountersAddUp(After(b, v))
    ensures MinimaMeet(b) && (Accepts(v) ==> v.frame.pm.length > 0) ==> MinimaMeet(After(b, v))
    ensures Clears(v) ==> MinimaMeet(After(b, v))
  {
    var placed := PlacedFor(b, v);
    if Accepts(v) {
      RecordedAddsUp(placed, DirectionOf(placed.tuple, v.frame), v.frame.pm.length);
      RecordedExtremes(placed, DirectionOf(placed.tuple, v.frame), v.frame.pm.length);
      if Clears(v) {
        RecordedMinimaIff(placed, DirectionOf(placed.tuple, v.frame), v.frame.pm.length);
      }
    }
  }

  lemma PositiveEpochShrinks(before: History, v: Verdict, h: nat)
    requires AllPositive(Lengths(EpochAfter(before, v, h))) && Touches(v, h)
    ensures Accepts(v) ==> v.frame.pm.length > 0
    ensures !Clears(v) ==> AllPositive(Lengths(before))
  {
    var after := EpochAfter(before, v, h);
    if Accepts(v) {
      assert Lengths(after)[|after| - 1] == v.frame.pm.length && Lengths(after)[|after| - 1] in Lengths(after);
    }
    if !Clears(v) {
      forall u | u in Lengths(before)
        ensures u > 0
      {
        var i :| 0 <= i < |before| && Lengths(before)[i] == u;
        assert Lengths(after)[i] == u && u in Lengths(after);
      }
    }
  }

  lemma {:induction false} ReplayAddsUp(log: seq<Verdict>, h: nat)
    ensures CountersAddUp(Replay(log, h))
    ensures AllPositive(Lengths(Epoch(log, h))) ==> MinimaMeet(Replay(log, h))
  {
    if log != [] {
      var front, v := log[..|log| - 1], log[|log| - 1];
      ReplayAddsUp(front, h);
      if Touches(v, h) {
        AfterAddsUp(Replay(front, h), v);
        if AllPositive(Lengths(Epoch(log, h))) {
          PositiveEpochShrinks(Epoch(front, h), v, h);
        }
      }
      hide CountersAddUp, MinimaMeet, Lengths, AllPositive, EpochAfter, After;
    }
  }

  /** In every reachable state forward and backward packets and bytes of a slot sum up to
      the bidirectional registers and the maxima agree; as long as the packets counted
      there since its last reset have positive length, so do the minima. */
  lemma DirectionsAddUp(n: nat, crc: FlowTuple -> nat, events: seq<Event>, h: nat)
    requires h < n
    ensures var log := Run(n, crc, events).log;
            && CountersAddUp(Replay(log, h))
            && (AllPositive(Lengths(Epoch(log, h))) ==> MinimaMeet(Replay(log, h)))
  {
    hide *;
    ReplayAddsUp(Run(n, crc, events).log, h);
  }

  // -------------------------------------------------------------------------
  // Exactly when the minima meet
  // -------------------------------------------------------------------------

  /** A packet of length zero is recorded where the other direction has a minimum. */
  predicate Splits(b: BiSlot, v: Verdict, h: nat) {
    Touches(v, h) && Accepts(v) && v.frame.pm.length == 0
    && var placed := PlacedFor(b, v);
    (if DirectionOf(placed.tuple, v.frame) == FORWARD then placed.backward else placed.forward).length.min != 0
  }

  lemma AfterMinimaIff(b: BiSlot, v: Verdict, h: nat)
    requires Touches(v, h) && (MinimaMeet(b) || Clears(v))
    ensures MinimaMeet(After(b, v)) <==> !Splits(b, v, h)
  {
    if Accepts(v) {
      var placed := PlacedFor(b, v);
      RecordedMinimaIff(placed, DirectionOf(placed.tuple, v.frame), v.frame.pm.length);
    }
  }

  predicate Resets(v: Verdict, h: nat) {
    Touches(v, h) && Clears(v)
  }

  /** The minima of the slot meet now and have met ever since its last reset. */
  ghost predicate MeetSinceReset(log: seq<Verdict>, h: nat) {
    MinimaMeet(Replay(log, h)) && (log != [] && !Resets(log[|log| - 1], h) ==> MeetSinceReset(log[..|log| - 1], h))
  }

  /** No packet recorded since the last reset of the slot splits them. */
  ghost predicate UnsplitSinceReset(log: seq<Verdict>, h: nat) {
    log == [] ||
    var front, v := log[..|log| - 1], log[|log| - 1];
    (!Resets(v, h) ==> UnsplitSinceReset(front, h)) && !Splits(Replay(front, h), v, h)
  }

  lemma {:induction false} MeetSinceResetIff(log: seq<Verdict>, h: nat)
    ensures MeetSinceReset(log, h) <==> UnsplitSinceReset(log, h)
  {
    if log != [] {
      var front, v := log[..|log| - 1], log[|log| - 1];
      MeetSinceResetIff(front, h);
      hide MinimaMeet, Splits, After;
      if Touches(v, h) && (Clears(v) || MinimaMeet(Replay(front, h))) {
        AfterMinimaIff(Replay(front, h), v, h);
      } else if !Touches(v, h) {
        NothingSplits(Replay(front, h), v, h);
      }
    }
  }

  lemma NothingSplits(b: BiSlot, v: Verdict, h: nat)
    requires !Touches(v, h)
    ensures !Splits(b, v, h)
  {
  }

  ghost predicate AlwaysMeet(log: seq<Verdict>, h: nat) {
    MinimaMeet(Replay(log, h)) && (log != [] ==> AlwaysMeet(log[..|log| - 1], h))
  }

  ghost predicate NeverSplit(log: seq<Verdict>, h: nat) {
    log == [] || (NeverSplit(log[..|log| - 1], h) && !Splits(Replay(log[..|log| - 1], h), log[|log| - 1], h))
  }

  lemma {:induction false} AlwaysMeetIff(log: seq<Verdict>, h: nat)
    ensures AlwaysMeet(log, h) <==> NeverSplit(log, h)
  {
    if log != [] {
      var front, v := log[..|log| - 1], log[|log| - 1];
      AlwaysMeetIff(front, h);
      hide MinimaMeet, Splits, After;
      if Touches(v, h) && MinimaMeet(Replay(front, h)) {
        AfterMinimaIff(Replay(front, h), v, h);
      } else if !Touches(v, h) {
        NothingSplits(Replay(front, h), v, h);
      }
    }
  }

  /** In every run the bidirectional minimum of a slot is the smaller directional one, now
      and ever since the slot was last reset, exactly if no packet of length zero was
      recorded there since while the other direction had a minimum; and at every prefix
      of the run exactly if none ever was. */
  lemma MinimaMeetInRunIff(n: nat, crc: FlowTuple -> nat, events: seq<Event>, h: nat)
    requires h < n
    ensures var log := Run(n, crc, events).log;
            && (MeetSinceReset(log, h) <==> UnsplitSinceReset(log, h))
            && (AlwaysMeet(log, h) <==> NeverSplit(log, h))
  {
    hide *;
    MeetSinceResetIff(Run(n, crc, events).log, h);
    AlwaysMeetIff(Run(n, crc, events).log, h);
  }

  /** The packet that registers a slot counts as FORWARD exactly without VXLAN or with the
      same addresses inside and outside. */
  lemma RegisteringPacketIsForwardIff(f: Frame)
    ensures DirectionOf(Key(f), f) == FORWARD <==>
            f.vxlan.None? || (f.vxlan.value.src == f.outer.src && f.vxlan.value.dst == f.outer.dst)
  {
  }

  // -------------------------------------------------------------------------
  // A run that splits them
  // -------------------------------------------------------------------------

  const THERE := FlowTuple(1, 2, 3, 4, 17)
  const BACK := FlowTuple(2, 1, 4, 3, 17)

  function FrameOf(t: FlowTuple, length: Bit32, timestamp: Bit56): Frame {
    Frame(ETHERTYPE_IPV4, 1, true, 0, 0, true, 64, t, None, Sample(length, timestamp))
  }

  const FIRST := FrameOf(THERE, 5, 1)
  const SECOND := FrameOf(BACK, 0, 2)
  const THIRD := FrameOf(BACK, 7, 3)

  /** The only slot holds the flow, seen last at this time. */
  ghost predicate Holds(w: World, last: Bit56) {
    && |w.device.slots| == 1 && w.device.slots[0].occupied
    && w.device.slots[0].tuple == THERE && w.device.slots[0].record.gaps.last == last
  }

  lemma FirstRegisters(crc: FlowTuple -> nat)
    ensures var w := Run(1, crc, [Arrival(FIRST)]);
            w.log == [Registered(0, FIRST)] && Holds(w, 1)
  {
    assert [] + [Arrival(FIRST)] == [Arrival(FIRST)];
    RunAppends(1, crc, [], Arrival(FIRST));
    var w := Run(1, crc, []);
    assert IndexOf(1, crc, FIRST) == 0 && !w.device.slots[0].occupied && w.log == [];
    NextSlot(w, crc, Arrival(FIRST), 0);
  }

  lemma NextContinues(w: World, crc: FlowTuple -> nat, last: Bit56, length: Bit32, timestamp: Bit56)
    requires Holds(w, last) && last <= timestamp <= 3
    ensures var f := FrameOf(BACK, length, timestamp);
            var r := Next(w, crc, Arrival(f));
            r.log == w.log + [Continued(0, f)] && Holds(r, timestamp)
  {
    var f := FrameOf(BACK, length, timestamp);
    assert IndexOf(1, crc, f) == 0;
    NextSlot(w, crc, Arrival(f), 0);
  }

  lemma ThreeVerdicts(crc: FlowTuple -> nat)
    ensures Run(1, crc, [Arrival(FIRST), Arrival(SECOND), Arrival(THIRD)]).log
            == [Registered(0, FIRST), Continued(0, SECOND), Continued(0, THIRD)]
  {
    hide Run, Next, Holds, FrameOf;
    var e0, e1, e2 := Arrival(FIRST), Arrival(SECOND), Arrival(THIRD);
    assert [e0] + [e1] == [e0, e1] && [e0, e1] + [e2] == [e0, e1, e2];
    RunAppends(1, crc, [e0], e1);
    RunAppends(1, crc, [e0, e1], e2);
    FirstRegisters(crc);
    NextContinues(Run(1, crc, [e0]), crc, 1, 0, 2);
    NextContinues(Run(1, crc, [e0, e1]), crc, 2, 7, 3);
  }

  /** Three packets of one flow, 5 forward, then 0 and 7 backward, leave 7 as the
      bidirectional minimum although the forward one is 5. */
  lemma ZeroLengthSplitsMinima(crc: FlowTuple -> nat)
    ensures var log := Run(1, crc, [Arrival(FIRST), Arrival(SECOND), Arrival(THIRD)]).log;
            var b := Replay(log, 0);
            b.total.length.min == 7 && b.forward.length.min == 5 && b.backward.length.min == 7 && !MinimaMeet(b)
  {
    ThreeVerdicts(crc);
    hide Run;
    var v0, v1, v2 := Registered(0, FIRST), Continued(0, SECOND), Continued(0, THIRD);
    assert [v0, v1, v2] == [v0, v1] + [v2] && [v0, v1] == [v0] + [v1] && [v0] == [] + [v0];
    ReplayAppends([], v0, 0);
    ReplayAppends([v0], v1, 0);
    ReplayAppends([v0, v1], v2, 0);
    FirstTwo();
    hide Replay;
  }

  /** The registers after the first two packets, and how the third changes them. */
  lemma FirstTwo()
    ensures var b2 := After(After(EMPTY, Registered(0, FIRST)), Continued(0, SECOND));
            var b := After(b2, Continued(0, THIRD));
            && b.total.length.min == 7 && b.forward.length.min == 5 && b.backward.length.min == 7 && !MinimaMeet(b)
  {
    hide AddLength;
    var b1 := After(EMPTY, Registered(0, FIRST));
    MinimumAfter(EMPTY.total, 5);
    MinimumAfter(EMPTY.forward, 5);
    assert b1.tuple == THERE && b1.total.length.min == 5 && b1.forward.length.min == 5 && b1.backward.length.min == 0;
    var b2 := After(b1, Continued(0, SECOND));
    MinimumAfter(b1.total, 0);
    MinimumAfter(b1.backward, 0);
    assert b2.tuple == THERE && b2.total.length.min == 0 && b2.forward.length.min == 5 && b2.backward.length.min == 0;
    MinimumAfter(b2.total, 7);
    MinimumAfter(b2.backward, 7);
  }

  lemma MinimumAfter(s: LengthStats, length: Bit32)
    ensures AddLength(s, length).length.min == if s.length.min == 0 || length < s.length.min then length else s.length.min
  {
  }

  /** The bidirectional registers are those of the FLOWS build. */
  lemma {:induction false} TotalsAreShared(n: nat, crc: FlowTuple -> nat, events: seq<Event>, h: nat)
    requires h < n
    ensures var w := Run(n, crc, events);
            && Replay(w.log, h).total == w.device.slots[h].record.stats
            && Replay(w.log, h).tuple == w.device.slots[h].tuple
  {
    if events != [] {
      var front, e := events[..|events| - 1], events[|events| - 1];
      TotalsAreShared(n, crc, front, h);
      var w := Run(n, crc, front);
      assert (w.log + [Judge(w.device.slots, crc, e)])[..|w.log|] == w.log;
      NextSlot(w, crc, e, h);
    }
  }

  // -------------------------------------------------------------------------
  // The registers in place
  // -------------------------------------------------------------------------

  class BiflowTable {
    const slots: array<BiSlot>
    ghost var log: seq<Verdict>

    ghost predicate Valid()
      reads this, slots
    {
      forall h :: 0 <= h < slots.Length ==> slots[h] == Replay(log, h)
    }

    constructor (n: nat)
      ensures Valid() && fresh(slots) && slots.Length == n && log == []
    {
      slots := new BiSlot[n](_ => EMPTY);
      log := [];
    }

    method UpdateBiflowData(h: nat, f: Frame)
      requires h < slots.Length
      modifies slots
      ensures slots[..] == old(slots[..])[h := Recorded(old(slots[h]), DirectionOf(old(slots[h]).tuple, f), f.pm.length)]
    {
      var b, length := slots[h], f.pm.length;
      slots[h] := b.(total := AddLength(b.total, length));
      var direction := DirectionOf(b.tuple, f);
      if direction == FORWARD {
        slots[h] := slots[h].(forward := AddLength(b.forward, length));
      }
      if direction == BACKWARD {
        slots[h] := slots[h].(backward := AddLength(b.backward, length));
      }
    }

    /** What the resetter, the registration and the updater do for one verdict. */
    method Follow(v: Verdict)
      requires Valid()
      modifies this`log, slots
      ensures Valid() && log == old(log) + [v]
    {
      assert (log + [v])[..|log|] == log;
      if !v.Passed? && !v.Dropped? && v.slot < slots.Length {
        var h := v.slot;
        if Clears(v) {
          slots[h] := EMPTY;
        }
        if Registers(v) {
          slots[h] := slots[h].(tuple := Key(v.frame));
        }
        if Accepts(v) {
          UpdateBiflowData(h, v.frame);
        }
      }
      log := log + [v];
    }
  }

  /** The ingress of the BIFLOWS build: the verdict is the one the FLOWS registers lead to,
      and in every slot the directions go on adding up. */
  method Ingress(t: FlowTable, b: BiflowTable, f: Frame) returns (v: Verdict)
    requires t.Valid() && b.Valid() && b.slots.Length == t.slots.Length
    requires b.log == Run(t.slots.Length, t.crc, t.events).log
    modifies t, t.slots, b`log, b.slots
    ensures t.Valid() && b.Valid() && t.events == old(t.events) + [Arrival(f)]
    ensures b.log == Run(t.slots.Length, t.crc, t.events).log
    ensures forall h :: 0 <= h < b.slots.Length ==> CountersAddUp(b.slots[h])
    ensures forall h :: 0 <= h < b.slots.Length && AllPositive(Lengths(Epoch(b.log, h))) ==> MinimaMeet(b.slots[h])
  {
    ghost var before := t.events;
    RunAppends(t.slots.Length, t.crc, before, Arrival(f));
    v := t.Ingress(f);
    b.Follow(v);
    hide Run, Replay, CountersAddUp, MinimaMeet, Epoch, Judge;
    forall h | 0 <= h < b.slots.Length
      ensures CountersAddUp(b.slots[h])
      ensures AllPositive(Lengths(Epoch(b.log, h))) ==> MinimaMeet(b.slots[h])
    {
      DirectionsAddUp(t.slots.Length, t.crc, t.events, h);
    }
  }
}
