/** Header fields as P4 lays them out: unsigned values of a given bit width, most
    significant bit first. */
module BitFields {
  import opened MovingAverage

  type Bits = seq<bool>

  function ToBits(width: nat, value: nat): (b: Bits)
    ensures |b| == width
  {
    if width == 0 then [] else ToBits(width - 1, value / 2) + [value % 2 == 1]
  }

  function FromBits(b: Bits): (v: nat)
    ensures v < Pow2(|b|)
  {
    if b == [] then 0 else 2 * FromBits(b[..|b| - 1]) + if b[|b| - 1] then 1 else 0
  }

  lemma {:induction false} BitsOfValue(b: Bits)
    ensures ToBits(|b|, FromBits(b)) == b
  {
    if b != [] {
      BitsOfValue(b[..|b| - 1]);
    }
  }

  lemma {:induction false} ValueOfBits(width: nat, value: nat)
    requires value < Pow2(width)
    ensures FromBits(ToBits(width, value)) == value
  {
    if width != 0 {
      ValueOfBits(width - 1, value / 2);
      var b := ToBits(width, value);
      assert b[..|b| - 1] == ToBits(width - 1, value / 2);
    }
  }

  function Width(layout: seq<nat>): nat {
    if layout == [] then 0 else layout[0] + Width(layout[1..])
  }

  lemma {:induction false} WidthAppends(a: seq<nat>, b: seq<nat>)
    ensures Width(a + b) == Width(a) + Width(b)
  {
    if a == [] {
      assert a + b == b;
    } else {
      assert (a + b)[1..] == a[1..] + b;
      WidthAppends(a[1..], b);
    }
  }

  function Unpack(layout: seq<nat>, b: Bits): (values: seq<nat>)
    requires |b| == Width(layout)
    ensures |values| == |layout|
  {
    if layout == [] then [] else [FromBits(b[..layout[0]])] + Unpack(layout[1..], b[layout[0]..])
  }

  function Pack(layout: seq<nat>, values: seq<nat>): (b: Bits)
    requires |values| == |layout|
    ensures |b| == Width(layout)
  {
    if layout == [] then [] else ToBits(layout[0], values[0]) + Pack(layout[1..], values[1..])
  }

  ghost predicate Fit(layout: seq<nat>, values: seq<nat>) {
    |values| == |layout| && forall i :: 0 <= i < |layout| ==> values[i] < Pow2(layout[i])
  }

  lemma {:induction false} UnpackFits(layout: seq<nat>, b: Bits)
    requires |b| == Width(layout)
    ensures Fit(layout, Unpack(layout, b))
  {
    if layout != [] {
      UnpackFits(layout[1..], b[layout[0]..]);
      assert forall i :: 0 < i < |layout| ==> layout[i] == layout[1..][i - 1];
    }
  }

  lemma {:induction false} PackUnpack(layout: seq<nat>, b: Bits)
    requires |b| == Width(layout)
    ensures Pack(layout, Unpack(layout, b)) == b
  {
    if layout != [] {
      PackUnpack(layout[1..], b[layout[0]..]);
      BitsOfValue(b[..layout[0]]);
      assert b == b[..layout[0]] + b[layout[0]..];
    }
  }

  lemma {:induction false} UnpackPack(layout: seq<nat>, values: seq<nat>)
    requires Fit(layout, values)
    ensures Unpack(layout, Pack(layout, values)) == values
  {
    if layout != [] {
      assert forall i :: 0 < i < |layout| ==> layout[i] == layout[1..][i - 1] && values[i] == values[1..][i - 1];
      UnpackPack(layout[1..], values[1..]);
      ValueOfBits(layout[0], values[0]);
      var b := Pack(layout, values);
      assert b[..layout[0]] == ToBits(layout[0], values[0]);
      assert b[layout[0]..] == Pack(layout[1..], values[1..]);
    }
  }

  lemma UnpackUnfolds(layout: seq<nat>, b: Bits)
    requires |b| == Width(layout) && layout != []
    ensures layout[0] <= |b| && |b[layout[0]..]| == Width(layout[1..])
    ensures Unpack(layout, b) == [FromBits(b[..layout[0]])] + Unpack(layout[1..], b[layout[0]..])
  {
  }

  lemma WidthUnfolds(layout: seq<nat>, i: nat)
    requires 0 < i < |layout|
    ensures Width(layout[..i]) == layout[0] + Width(layout[1..][..i - 1])
  {
    assert layout[..i][1..] == layout[1..][..i - 1];
  }

  lemma SliceOfRest(b: Bits, from: nat, at: nat, to: nat)
    requires from <= |b| && at <= to <= |b| - from
    ensures b[from..][at..to] == b[from + at..from + to]
  {
  }

  /** Field `i` is made of the bits behind those of the fields before it. */
  lemma {:induction false} FieldBits(layout: seq<nat>, b: Bits, i: nat)
    requires |b| == Width(layout) && i < |layout|
    ensures var at := Width(layout[..i]);
            at + layout[i] <= |b| && Unpack(layout, b)[i] == FromBits(b[at..at + layout[i]])
    decreases i
  {
    UnpackUnfolds(layout, b);
    if i == 0 {
      assert Width(layout[..0]) == 0;
      hide FromBits, Unpack, Width;
      assert b[0..layout[0]] == b[..layout[0]];
    } else {
      WidthUnfolds(layout, i);
      hide FromBits, Unpack, Width;
      FieldBits(layout[1..], b[layout[0]..], i - 1);
      var at := Width(layout[1..][..i - 1]);
      SliceOfRest(b, layout[0], at, at + layout[i]);
    }
  }
}
