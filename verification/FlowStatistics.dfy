/** The running statistics a flow slot keeps, and what they mean in terms of the
    packets they were computed from. */
module FlowStatistics {
  import opened MovingAverage

  const VALUE_WIDTH := 32
  const TIMESTAMP_WIDTH := 56
  /** SUBFLOW_WINDOW_POWER_OF_TWO of the shipped build. */
  const SHIFT := 2

  const VALUES: nat := 0x1_0000_0000
  const TIMESTAMPS: nat := 0x100_0000_0000_0000

  type Bit32 = x: int | 0 <= x < VALUES witness 0
  type Bit56 = x: int | 0 <= x < TIMESTAMPS witness 0

  lemma WidthsAreExact()
    ensures Pow2(VALUE_WIDTH) == VALUES
    ensures Pow2(TIMESTAMP_WIDTH) == TIMESTAMPS
  {
    Pow2Octet(0);
    Pow2Octet(8);
    Pow2Octet(16);
    Pow2Octet(24);
    Pow2Octet(32);
    Pow2Octet(40);
    Pow2Octet(48);
  }

  lemma Pow2Octet(n: nat)
    ensures Pow2(n + 8) == 256 * Pow2(n)
  {
    assert Pow2(n + 2) == 4 * Pow2(n);
    assert Pow2(n + 4) == 4 * Pow2(n + 2);
    assert Pow2(n + 6) == 4 * Pow2(n + 4);
    assert Pow2(n + 8) == 4 * Pow2(n + 6);
  }

  /** The part of the `pm` header the statistics read. */
  datatype Sample = Sample(length: Bit32, timestamp: Bit56)

  // -------------------------------------------------------------------------
  // Minimum, maximum and moving average, with zero as "nothing yet"
  // -------------------------------------------------------------------------

  datatype Extremes = Extremes(min: nat, max: nat, mean: nat)

  const NONE := Extremes(0, 0, 0)

  function Absorb(width: nat, e: Extremes, v: nat): Extremes {
    Extremes(
      if e.min == 0 || v < e.min then v else e.min,
      if v > e.max then v else e.max,
      Average(width, SHIFT, e.mean, v))
  }

  ghost predicate IsLeast(m: nat, values: seq<nat>) {
    m in values && forall v :: v in values ==> m <= v
  }

  ghost predicate IsGreatest(m: nat, values: seq<nat>) {
    m in values && forall v :: v in values ==> v <= m
  }

  ghost predicate AllPositive(values: seq<nat>) {
    forall v :: v in values ==> v > 0
  }

  /** The values after the last zero. */
  ghost function AfterLastZero(values: seq<nat>): (tail: seq<nat>)
    ensures AllPositive(tail)
    ensures forall v :: v in tail ==> v in values
    ensures AllPositive(values) ==> tail == values
  {
    if values == [] then []
    else if values[|values| - 1] == 0 then
      assert values[|values| - 1] in values;
      []
    else
      var front := values[..|values| - 1];
      assert forall v :: v in front ==> v in values;
      assert values == front + [values[|values| - 1]];
      AfterLastZero(front) + [values[|values| - 1]]
  }

  /** The moving average on unbounded naturals, starting at the first value. */
  ghost function Smoothed(values: seq<nat>): nat
    requires values != []
  {
    var last := values[|values| - 1];
    if |values| == 1 then last else Blend(Pow2(SHIFT), Smoothed(values[..|values| - 1]), last)
  }

  /** Zero stands for no value since the last zero. */
  ghost predicate IsLeastSinceZero(m: nat, values: seq<nat>) {
    if AfterLastZero(values) == [] then m == 0 else IsLeast(m, AfterLastZero(values))
  }

  /** What the three registers say about the values seen: the maximum is the true
      one, the minimum is the true one since the last zero, the average never
      exceeds the maximum, and for positive values it is the average on
      naturals and no smaller than the minimum. */
  ghost predicate Summarises(e: Extremes, values: seq<nat>) {
    && (if values == [] then e == NONE else IsGreatest(e.max, values))
    && IsLeastSinceZero(e.min, values)
    && e.mean <= e.max
    && (AllPositive(values) && values != [] ==> e.min <= e.mean == Smoothed(values))
  }

  lemma LeastAbsorbs(m: nat, values: seq<nat>, v: nat)
    requires IsLeastSinceZero(m, values)
    ensures IsLeastSinceZero(if m == 0 || v < m then v else m, values + [v])
  {
    assert (values + [v])[..|values|] == values;
  }

  lemma GreatestAbsorbs(m: nat, values: seq<nat>, v: nat)
    requires if values == [] then m == 0 else IsGreatest(m, values)
    ensures IsGreatest(if v > m then v else m, values + [v])
  {
    assert forall u :: u in values + [v] <==> u in values || u == v;
  }

  lemma PositiveAbsorbs(values: seq<nat>, v: nat)
    requires AllPositive(values + [v])
    ensures v > 0 && AllPositive(values) && AfterLastZero(values) == values && AfterLastZero(values + [v]) == values + [v]
  {
    assert v in values + [v] && forall u :: u in values ==> u in values + [v];
  }

  lemma GreatestFits(width: nat, m: nat, values: seq<nat>)
    requires if values == [] then m == 0 else IsGreatest(m, values)
    requires forall u :: u in values ==> u < Pow2(width)
    ensures m < Pow2(width)
  {
  }

  /** The average of positive values starts with the first one and stays the natural one. */
  lemma MeanAbsorbs(width: nat, e: Extremes, values: seq<nat>, v: nat)
    requires Summarises(e, values) && v < Pow2(width) && e.mean < Pow2(width) && AllPositive(values + [v])
    ensures Min(e.min, v) <= Average(width, SHIFT, e.mean, v) || values == []
    ensures values == [] ==> Average(width, SHIFT, e.mean, v) == v
    ensures values != [] ==> e.min > 0
    ensures Average(width, SHIFT, e.mean, v) == Smoothed(values + [v])
  {
    PositiveAbsorbs(values, v);
    AverageIsExact(width, SHIFT, e.mean, v);
    assert (values + [v])[..|values|] == values;
    assert values != [] ==> e.min in values && e.min > 0;
    hide Average, AfterLastZero, IsGreatest;
  }

  lemma AbsorbSummarises(width: nat, e: Extremes, values: seq<nat>, v: nat)
    requires Summarises(e, values)
    requires v < Pow2(width) && forall u :: u in values ==> u < Pow2(width)
    ensures Summarises(Absorb(width, e, v), values + [v])
  {
    GreatestFits(width, e.max, values);
    LeastAbsorbs(e.min, values, v);
    GreatestAbsorbs(e.max, values, v);
    AverageIsExact(width, SHIFT, e.mean, v);
    if AllPositive(values + [v]) {
      MeanAbsorbs(width, e, values, v);
      PositiveAbsorbs(values, v);
    }
    hide IsLeastSinceZero, IsGreatest, Average, AllPositive, Smoothed, Pow2;
  }

  /** The minimum register holds the true minimum of all values exactly if the last
      value is zero or none is. */
  lemma MinimumIsTrueIff(e: Extremes, values: seq<nat>)
    requires Summarises(e, values) && values != []
    ensures IsLeast(e.min, values) <==> (forall i :: 0 <= i < |values| - 1 && values[i] == 0 ==> values[|values| - 1] == 0)
  {
    var last := |values| - 1;
    if values[last] == 0 {
      assert AfterLastZero(values) == [] && values[last] in values;
    } else if i :| 0 <= i < last && values[i] == 0 {
      assert values[i] in values;
      assert values[last] in AfterLastZero(values);
    } else {
      assert AllPositive(values);
    }
  }

  // -------------------------------------------------------------------------
  // Packet and byte counters
  // -------------------------------------------------------------------------

  ghost function Total(values: seq<nat>): nat {
    if values == [] then 0 else Total(values[..|values| - 1]) + values[|values| - 1]
  }

  lemma {:induction false} TotalAppends(values: seq<nat>, v: nat)
    ensures Total(values + [v]) == Total(values) + v
  {
    assert (values + [v])[..|values|] == values;
  }

  datatype LengthStats = LengthStats(packets: Bit32, bytes: Bit32, length: Extremes)

  const NO_LENGTHS := LengthStats(0, 0, NONE)

  function AddLength(s: LengthStats, length: Bit32): LengthStats {
    LengthStats((s.packets + 1) % VALUES, (s.bytes + length) % VALUES, Absorb(VALUE_WIDTH, s.length, length))
  }

  ghost predicate CountsLengths(s: LengthStats, lengths: seq<nat>) {
    && s.packets == |lengths| % VALUES
    && s.bytes == Total(lengths) % VALUES
    && Summarises(s.length, lengths)
  }

  lemma WrappedSum(a: int, b: int)
    ensures (a % VALUES + b) % VALUES == (a + b) % VALUES
  {
  }

  lemma CountersAdd(s: LengthStats, lengths: seq<nat>, length: Bit32)
    requires s.packets == |lengths| % VALUES && s.bytes == Total(lengths) % VALUES
    ensures (s.packets + 1) % VALUES == |lengths + [length]| % VALUES
    ensures (s.bytes + length) % VALUES == Total(lengths + [length]) % VALUES
  {
    TotalAppends(lengths, length);
    WrappedSum(|lengths|, 1);
    WrappedSum(Total(lengths), length);
  }

  lemma AddLengthCounts(s: LengthStats, lengths: seq<nat>, length: Bit32)
    requires CountsLengths(s, lengths) && forall v :: v in lengths ==> v < VALUES
    ensures CountsLengths(AddLength(s, length), lengths + [length])
  {
    WidthsAreExact();
    CountersAdd(s, lengths, length);
    AbsorbSummarises(VALUE_WIDTH, s.length, lengths, length);
  }

  // -------------------------------------------------------------------------
  // Inter-arrival times and the first and last timestamps
  // -------------------------------------------------------------------------

  datatype GapStats = GapStats(last: Bit56, gap: Extremes)

  const NO_GAPS := GapStats(0, NONE)

  /** 56-bit subtraction of timestamps. */
  function Elapsed(now: Bit56, before: Bit56): Bit56 {
    if before <= now then now - before else now - before + TIMESTAMPS
  }

  function AddArrival(g: GapStats, now: Bit56): GapStats {
    var elapsed := Elapsed(now, g.last);
    var current := if g.last != 0 then elapsed else 0;
    GapStats(now, Extremes(
      if (g.gap.min == 0 && g.last != 0) || elapsed < g.gap.min then elapsed else g.gap.min,
      if (g.gap.max == 0 && g.last != 0) || (g.gap.max != 0 && elapsed > g.gap.max) then elapsed else g.gap.max,
      Average(TIMESTAMP_WIDTH, SHIFT, g.gap.mean, current)))
  }

  lemma ArrivalAbsorbs(g: GapStats, now: Bit56)
    ensures g.last != 0 ==> AddArrival(g, now) == GapStats(now, Absorb(TIMESTAMP_WIDTH, g.gap, Elapsed(now, g.last)))
    ensures g == NO_GAPS ==> AddArrival(g, now) == GapStats(now, NONE)
  {
  }

  type History = seq<Sample>

  ghost function Lengths(h: History): (r: seq<nat>)
    ensures |r| == |h| && forall i :: 0 <= i < |h| ==> r[i] == h[i].length
  {
    seq(|h|, i requires 0 <= i < |h| => h[i].length)
  }

  /** Times between neighbouring packets. */
  ghost function Gaps(h: History): (r: seq<nat>)
    ensures |r| == if h == [] then 0 else |h| - 1
    ensures forall i :: 0 <= i < |r| ==> r[i] == Elapsed(h[i + 1].timestamp, h[i].timestamp)
  {
    if h == [] then [] else
    seq(|h| - 1, i requires 0 <= i < |h| - 1 => Elapsed(h[i + 1].timestamp, h[i].timestamp))
  }

  ghost predicate PositiveTimes(h: History) {
    forall i :: 0 <= i < |h| ==> h[i].timestamp > 0
  }

  lemma GapAt(h: History, p: Sample, i: nat)
    requires i < |h|
    ensures i < |Gaps(h + [p])|
    ensures Gaps(h + [p])[i] == if i < |h| - 1 then Gaps(h)[i] else Elapsed(p.timestamp, h[|h| - 1].timestamp)
  {
    var all := h + [p];
    assert all[i] == h[i] && all[i + 1] == if i < |h| - 1 then h[i + 1] else p;
  }

  lemma GapsAreTimes(h: History)
    ensures forall v :: v in Gaps(h) ==> v < TIMESTAMPS
  {
  }

  lemma GapsAppend(h: History, p: Sample)
    requires h != []
    ensures Gaps(h + [p]) == Gaps(h) + [Elapsed(p.timestamp, h[|h| - 1].timestamp)]
    ensures forall v :: v in Gaps(h) ==> v < TIMESTAMPS
  {
    GapsAreTimes(h);
    forall i | 0 <= i < |h|
      ensures Gaps(h + [p])[i] == (Gaps(h) + [Elapsed(p.timestamp, h[|h| - 1].timestamp)])[i]
    {
      GapAt(h, p, i);
    }
  }

  /** With timestamps above zero the inter-arrival registers summarise exactly the
      gaps between neighbouring packets. */
  ghost predicate CountsGaps(g: GapStats, h: History) {
    && g.last == (if h == [] then 0 else h[|h| - 1].timestamp)
    && (h == [] ==> g == NO_GAPS)
    && (PositiveTimes(h) ==> Summarises(g.gap, Gaps(h)))
  }

  lemma AddArrivalCounts(g: GapStats, h: History, p: Sample)
    requires CountsGaps(g, h)
    ensures CountsGaps(AddArrival(g, p.timestamp), h + [p])
  {
    ArrivalAbsorbs(g, p.timestamp);
    var all := h + [p];
    if PositiveTimes(all) && h != [] {
      assert PositiveTimes(h) by {
        assert forall i :: 0 <= i < |h| ==> h[i] == all[i];
      }
      GapsAppend(h, p);
      WidthsAreExact();
      AbsorbSummarises(TIMESTAMP_WIDTH, g.gap, Gaps(h), Elapsed(p.timestamp, g.last));
    }
  }

  /** The first-packet timestamp is written whenever the 32-bit packet counter
      reads one, so it belongs to the packet that last started the counter. */
  ghost predicate MarksStart(first: Bit56, h: History) {
    first == if h == [] then 0 else h[(|h| - 1) - (|h| - 1) % VALUES].timestamp
  }

  lemma StartAdvances(first: Bit56, h: History, p: Sample)
    requires MarksStart(first, h)
    ensures MarksStart(if (|h| + 1) % VALUES == 1 then p.timestamp else first, h + [p])
  {
    var n, all := |h|, h + [p];
    var k := n - n % VALUES;
    if (n + 1) % VALUES == 1 {
      assert n % VALUES == 0;
    } else {
      assert n % VALUES != 0 && (n - 1) % VALUES == n % VALUES - 1;
      assert all[k] == h[k];
    }
  }

  // -------------------------------------------------------------------------
  // The whole record of a flow
  // -------------------------------------------------------------------------

  datatype Record = Record(stats: LengthStats, first: Bit56, gaps: GapStats)

  const NO_RECORD := Record(NO_LENGTHS, 0, NO_GAPS)

  function Extend(r: Record, p: Sample): Record {
    var stats := AddLength(r.stats, p.length);
    Record(stats, if stats.packets == 1 then p.timestamp else r.first, AddArrival(r.gaps, p.timestamp))
  }

  ghost predicate Counts(r: Record, h: History) {
    && CountsLengths(r.stats, Lengths(h))
    && MarksStart(r.first, h)
    && CountsGaps(r.gaps, h)
  }

  lemma EmptyCounts()
    ensures Counts(NO_RECORD, [])
  {
    assert Lengths([]) == [] && Gaps([]) == [];
  }

  lemma ExtendCounts(r: Record, h: History, p: Sample)
    requires Counts(r, h)
    ensures Counts(Extend(r, p), h + [p])
  {
    assert Lengths(h + [p]) == Lengths(h) + [p.length];
    AddLengthCounts(r.stats, Lengths(h), p.length);
    AddArrivalCounts(r.gaps, h, p);
    StartAdvances(r.first, h, p);
  }
}
