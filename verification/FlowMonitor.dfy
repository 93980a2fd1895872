/** The flow-monitoring ingress as a state machine over packets, idle-timeout
    messages and exports: what each event does to the register arrays, and what
    holds after every sequence of events. */
module FlowMonitor {
  import opened EtherTypes
  import opened FlowStatistics
  import opened Options

  const CPU_PORT := 510
  const IDLE_TIMEOUT := 0
  /** FLOW_INACTIVE_TIMEOUT seconds in microseconds. */
  const INACTIVE_TIMEOUT: nat := 16 * 1000000

  datatype FlowTuple = FlowTuple(src: Bit32, dst: Bit32, srcPort: nat, dstPort: nat, protocol: nat)

  const NO_TUPLE := FlowTuple(0, 0, 0, 0, 0)

  /** A parsed packet. `reason` and `flowHash` are the fields of the flow_mon header,
      `vxlan` holds the inner 5-tuple when the VXLAN header is valid. */
  datatype Frame = Frame(
    etherType: nat, ingressPort: nat, normal: bool,
    reason: nat, flowHash: nat,
    ipv4Valid: bool, ttl: nat,
    outer: FlowTuple, vxlan: Option<FlowTuple>,
    pm: Sample)

  /** One index of all per-flow register arrays. `counted` is the packet half of
      flow_packets_bytes_counter, which nothing ever clears. */
  datatype Slot = Slot(
    occupied: bool, tuple: FlowTuple, record: Record, counted: nat)

  const EMPTY_SLOT := Slot(false, NO_TUPLE, NO_RECORD, 0)

  datatype Device = Device(slots: seq<Slot>, collisions: nat, registrations: nat, lastTimestamp: Bit56)

  datatype Event = Arrival(frame: Frame) | Export(slot: nat)

  /** What the ingress decides to do with an event. */
  datatype Verdict =
    | Passed
    | Dropped
    | IdleReset(slot: nat)
    | Registered(slot: nat, frame: Frame)
    | Restarted(slot: nat, frame: Frame)
    | Continued(slot: nat, frame: Frame)
    | Collided(slot: nat, frame: Frame)
    | Exported(slot: nat)

  // -------------------------------------------------------------------------
  // Branches
  // -------------------------------------------------------------------------

  /** The 5-tuple a packet is hashed and registered by. */
  function Key(f: Frame): FlowTuple {
    if f.vxlan.Some? then f.vxlan.value else f.outer
  }

  /** `hash(...)` with base 0 and max = number of slots, for an arbitrary CRC. */
  function IndexOf(n: nat, crc: FlowTuple -> nat, f: Frame): (h: nat)
    requires n > 0
    ensures h < n
  {
    crc(Key(f)) % n
  }

  predicate SamePair(a: nat, b: nat, c: nat, d: nat) {
    (a == c && b == d) || (a == d && b == c)
  }

  /** check_flow_hash_collision_action: always the outer protocol, but the inner
      addresses and ports under VXLAN. */
  predicate Collides(f: Frame, t: FlowTuple) {
    || f.outer.protocol != t.protocol
    || !SamePair(Key(f).src, Key(f).dst, t.src, t.dst)
    || !SamePair(Key(f).srcPort, Key(f).dstPort, t.srcPort, t.dstPort)
  }

  predicate TimedOut(s: Slot, f: Frame) {
    Elapsed(f.pm.timestamp, s.record.gaps.last) > INACTIVE_TIMEOUT
  }

  predicate IsControl(f: Frame) {
    f.etherType == ETHERTYPE_FLOW_MONITORING && f.ingressPort == CPU_PORT
  }

  /** IPv4 packets that get past the TTL gate. */
  predicate Monitored(f: Frame) {
    && !IsControl(f)
    && f.normal && f.etherType == ETHERTYPE_IPV4
    && f.ipv4Valid && f.ttl > 1
  }

  function Judge(slots: seq<Slot>, crc: FlowTuple -> nat, e: Event): Verdict
    requires |slots| > 0
  {
    match e
    case Export(h) => Exported(h)
    case Arrival(f) =>
      if IsControl(f) then
        if f.reason == IDLE_TIMEOUT then IdleReset(f.flowHash) else Dropped
      else if !(f.normal && f.etherType == ETHERTYPE_IPV4) then Passed
      else if !(f.ipv4Valid && f.ttl > 1) then Dropped
      else
        var h := IndexOf(|slots|, crc, f);
        var s := slots[h];
        if !s.occupied then Registered(h, f)
        else if TimedOut(s, f) then Restarted(h, f)
        else if Collides(f, s.tuple) then Collided(h, f)
        else Continued(h, f)
  }

  // -------------------------------------------------------------------------
  // Effects
  // -------------------------------------------------------------------------

  function Cleared(s: Slot): Slot {
    s.(tuple := NO_TUPLE, record := NO_RECORD)
  }

  function Updated(s: Slot, p: Sample): Slot {
    s.(counted := s.counted + 1, record := Extend(s.record, p))
  }

  predicate Clears(v: Verdict) {
    v.IdleReset? || v.Restarted?
  }

  predicate Registers(v: Verdict) {
    v.Registered? || v.Restarted?
  }

  predicate Accepts(v: Verdict) {
    Registers(v) || v.Continued?
  }

  /** The slot once a verdict has reset, registered, freed or occupied it. */
  function Placed(s: Slot, v: Verdict): Slot {
    var cleared := if Clears(v) then Cleared(s) else s;
    cleared.(
      occupied := if v.IdleReset? || v.Exported? then false else if v.Registered? then true else s.occupied,
      tuple := if Registers(v) then Key(v.frame) else cleared.tuple)
  }

  /** The slot a verdict touches, after it. */
  function Touched(s: Slot, v: Verdict): Slot {
    if Accepts(v) then Updated(Placed(s, v), v.frame.pm) else Placed(s, v)
  }

  predicate Touches(v: Verdict, h: nat) {
    !v.Passed? && !v.Dropped? && v.slot == h
  }

  /** Register writes past the end of an array have no effect. */
  function Perform(d: Device, v: Verdict): (r: Device)
    ensures |r.slots| == |d.slots|
    ensures forall h :: 0 <= h < |d.slots| ==> r.slots[h] == if Touches(v, h) then Touched(d.slots[h], v) else d.slots[h]
  {
    Device(
      if v.Passed? || v.Dropped? || v.slot >= |d.slots| then d.slots else d.slots[v.slot := Touched(d.slots[v.slot], v)],
      d.collisions + if v.Collided? then 1 else 0,
      d.registrations + if Registers(v) then 1 else 0,
      if Accepts(v) then v.frame.pm.timestamp else d.lastTimestamp)
  }

  /** A device together with the verdicts it has given. */
  datatype World = World(device: Device, log: seq<Verdict>)

  function Fresh(n: nat): Device {
    Device(seq(n, _ => EMPTY_SLOT), 0, 0, 0)
  }

  function Next(w: World, crc: FlowTuple -> nat, e: Event): (r: World)
    requires |w.device.slots| > 0
    ensures |r.device.slots| == |w.device.slots|
  {
    var v := Judge(w.device.slots, crc, e);
    World(Perform(w.device, v), w.log + [v])
  }

  function Run(n: nat, crc: FlowTuple -> nat, events: seq<Event>): (w: World)
    requires n > 0
    ensures |w.device.slots| == n
  {
    if events == [] then World(Fresh(n), [])
    else Next(Run(n, crc, events[..|events| - 1]), crc, events[|events| - 1])
  }

  lemma RunAppends(n: nat, crc: FlowTuple -> nat, events: seq<Event>, e: Event)
    requires n > 0
    ensures Run(n, crc, events + [e]) == Next(Run(n, crc, events), crc, e)
  {
    assert (events + [e])[..|events|] == events;
  }

  // -------------------------------------------------------------------------
  // The registers against the packets accepted since the last reset
  // -------------------------------------------------------------------------

  /** Packets counted in slot `h` since its last reset, read off the verdicts. */
  ghost function Epoch(log: seq<Verdict>, h: nat): History {
    if log == [] then [] else EpochAfter(Epoch(log[..|log| - 1], h), log[|log| - 1], h)
  }

  ghost function EpochAfter(before: History, v: Verdict, h: nat): History {
    if !Touches(v, h) then before else
    var kept := if Clears(v) then [] else before;
    if Accepts(v) then kept + [v.frame.pm] else kept
  }

  /** Packets counted in slot `h` since its 5-tuple was last registered. */
  ghost function Conversation(log: seq<Verdict>, h: nat): seq<Frame> {
    if log == [] then [] else ConversationAfter(Conversation(log[..|log| - 1], h), log[|log| - 1], h)
  }

  ghost function ConversationAfter(before: seq<Frame>, v: Verdict, h: nat): seq<Frame> {
    if !Touches(v, h) then before else
    var kept := if Clears(v) || Registers(v) then [] else before;
    if Accepts(v) then kept + [v.frame] else kept
  }

  lemma LogAppends(log: seq<Verdict>, v: Verdict, h: nat)
    ensures Epoch(log + [v], h) == EpochAfter(Epoch(log, h), v, h)
    ensures Conversation(log + [v], h) == ConversationAfter(Conversation(log, h), v, h)
  {
    assert (log + [v])[..|log|] == log;
  }

  ghost predicate Agrees(f: Frame, t: FlowTuple) {
    && SamePair(Key(f).src, Key(f).dst, t.src, t.dst)
    && SamePair(Key(f).srcPort, Key(f).dstPort, t.srcPort, t.dstPort)
    && (f.outer.protocol == t.protocol || Key(f).protocol == t.protocol)
  }

  ghost predicate SameConversation(s: Slot, conversation: seq<Frame>) {
    forall f :: f in conversation ==> Agrees(f, s.tuple)
  }

  ghost predicate Follows(s: Slot, log: seq<Verdict>, h: nat) {
    Counts(s.record, Epoch(log, h)) && SameConversation(s, Conversation(log, h))
  }

  ghost predicate AllFollow(w: World) {
    forall h :: 0 <= h < |w.device.slots| ==> Follows(w.device.slots[h], w.log, h)
  }

  lemma TouchedCounts(s: Slot, v: Verdict, history: History)
    requires Counts(s.record, history) && !v.Passed? && !v.Dropped?
    ensures Counts(Touched(s, v).record, EpochAfter(history, v, v.slot))
  {
    EmptyCounts();
    if Accepts(v) {
      ExtendCounts(
        if Clears(v) then NO_RECORD else s.record,
        if Clears(v) then [] else history,
        v.frame.pm);
    }
  }

  lemma TouchedAgrees(s: Slot, v: Verdict, conversation: seq<Frame>)
    requires SameConversation(s, conversation) && !v.Passed? && !v.Dropped?
    requires v.Continued? ==> !Collides(v.frame, s.tuple)
    ensures SameConversation(Touched(s, v), ConversationAfter(conversation, v, v.slot))
  {
  }

  lemma SlotFollows(s: Slot, v: Verdict, log: seq<Verdict>, h: nat)
    requires Follows(s, log, h)
    requires v.Continued? ==> !Touches(v, h) || !Collides(v.frame, s.tuple)
    ensures Follows(if Touches(v, h) then Touched(s, v) else s, log + [v], h)
  {
    LogAppends(log, v, h);
    if Touches(v, h) {
      TouchedCounts(s, v, Epoch(log, h));
      TouchedAgrees(s, v, Conversation(log, h));
    }
  }

  lemma NextSlot(w: World, crc: FlowTuple -> nat, e: Event, h: nat)
    requires h < |w.device.slots|
    ensures var v, s := Judge(w.device.slots, crc, e), w.device.slots[h];
            && Next(w, crc, e).device.slots[h] == (if Touches(v, h) then Touched(s, v) else s)
            && Next(w, crc, e).log == w.log + [v]
            && (v.Continued? && Touches(v, h) ==> !Collides(v.frame, s.tuple))
  {
  }

  lemma NextFollows(w: World, crc: FlowTuple -> nat, e: Event, h: nat)
    requires h < |w.device.slots| && Follows(w.device.slots[h], w.log, h)
    ensures Follows(Next(w, crc, e).device.slots[h], Next(w, crc, e).log, h)
  {
    NextSlot(w, crc, e, h);
    SlotFollows(w.device.slots[h], Judge(w.device.slots, crc, e), w.log, h);
  }

  /** In every run the registers of every slot are the statistics of the packets
      accepted there since its last reset, and every packet counted since the
      last registration belongs to the registered conversation. */
  lemma {:induction false} RunFollows(n: nat, crc: FlowTuple -> nat, events: seq<Event>)
    requires n > 0
    ensures AllFollow(Run(n, crc, events))
  {
    if events != [] {
      var before, e := Run(n, crc, events[..|events| - 1]), events[|events| - 1];
      RunFollows(n, crc, events[..|events| - 1]);
      forall h | 0 <= h < n
        ensures Follows(Next(before, crc, e).device.slots[h], Next(before, crc, e).log, h)
      {
        NextFollows(before, crc, e, h);
      }
    }
  }
}
