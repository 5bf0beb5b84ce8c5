/**
 Axis values of USB devices: map_range brings any device range to -500..500, and
 read_device swaps and inverts axes so that all devices agree.
 */
module DeviceAxes {
  import opened Basics
  import opened Inputs

  const DEF_MINVAL := -500
  const DEF_MAXVAL := 500
  const DEF_RANGE := 1000
  // division truncates toward zero
  function TruncDiv(a: int, b: int): int
    requires b > 0
  {
    if a >= 0 then a / b else -((-a) / b)
  }

  function MapRange(min: int, max: int, val: int): int {
    var range := ToInt(max - min);
    if range <= 0 then val
    else ToInt(TruncDiv(ToInt(ToInt(val - min) * DEF_RANGE), range) + DEF_MINVAL)
  }

  /** The device range is brought to -500..500: ends to ends, inside to inside, order kept. */
  ghost predicate Normalises(min: int, max: int) {
    && MapRange(min, max, min) == DEF_MINVAL
    && MapRange(min, max, max) == DEF_MAXVAL
    && (forall v :: min <= v <= max ==> DEF_MINVAL <= MapRange(min, max, v) <= DEF_MAXVAL)
    && (forall v, w :: min <= v <= w <= max ==> MapRange(min, max, v) <= MapRange(min, max, w))
  }

  lemma DivMono(a: nat, b: nat, r: int)
    requires a <= b && r > 0
    ensures a / r <= b / r
  {
    if a / r > b / r {
      var x, y := a / r, b / r;
      assert a == r * x + a % r && b == r * y + b % r;
      assert r * x >= r * (y + 1) by { MulMono(r, y + 1, x); }
    }
  }

  lemma DivExact(k: nat, r: int)
    requires r > 0
    ensures (r * k) / r == k
  {
    var q := (r * k) / r;
    assert r * k == r * q + (r * k) % r;
    if q < k { MulMono(r, q + 1, k); }
    if q > k { MulMono(r, k + 1, q); }
  }

  // no overflow: plain integer arithmetic
  lemma MapRangeIs(min: int, max: int, v: int)
    requires IsInt(min) && IsInt(max) && min <= v <= max && min < max
    requires (max - min) * DEF_RANGE < INT_LIMIT
    ensures MapRange(min, max, v) == (v - min) * DEF_RANGE / (max - min) + DEF_MINVAL
    ensures DEF_MINVAL <= MapRange(min, max, v) <= DEF_MAXVAL
  {
    hide ToInt;
    var r, d := max - min, v - min;
    DivMono(0, d * 1000, r);
    DivMono(d * 1000, r * 1000, r);
    DivExact(1000, r);
    DivExact(0, r);
  }

  lemma MapRangeMono(min: int, max: int, v: int, w: int)
    requires IsInt(min) && IsInt(max) && min <= v <= w <= max && min < max
    requires (max - min) * DEF_RANGE < INT_LIMIT
    ensures MapRange(min, max, v) <= MapRange(min, max, w)
  {
    hide MapRange;
    MapRangeIs(min, max, v);
    MapRangeIs(min, max, w);
    DivMono((v - min) * DEF_RANGE, (w - min) * DEF_RANGE, max - min);
  }

  // an overflowing range does not even map its upper end to 500
  lemma OverflowMisses(min: int, max: int)
    requires IsInt(min) && IsInt(max) && min < max && (max - min) * DEF_RANGE >= INT_LIMIT
    ensures MapRange(min, max, min) != DEF_MINVAL || MapRange(min, max, max) != DEF_MAXVAL
  {
    var range := ToInt(max - min);
    if range > 0 {
      assert range == max - min;
      WrappedQuotient(ToInt(range * DEF_RANGE), range);
    }
  }

  lemma DivBelow(p: nat, k: nat, r: int)
    requires r > 0 && p < r * k
    ensures p / r < k
  {
  }

  lemma DivShrinks(p: nat, r: int)
    requires r > 0
    ensures 0 <= p / r <= p
  {
    assert p == r * (p / r) + p % r;
    if p / r > p { MulMono(r, p + 1, p / r); Expand(r, p); }
  }

  lemma Expand(r: int, p: nat)
    requires r >= 1
    ensures r * (p + 1) >= p + 1
  {
    assert r * (p + 1) - (p + 1) == (r - 1) * (p + 1);
  }

  lemma WrappedQuotient(p: int, range: int)
    requires IsInt(p) && 0 < range < INT_LIMIT && range * 1000 >= INT_LIMIT
    ensures ToInt(TruncDiv(p, range) + DEF_MINVAL) != DEF_MAXVAL
  {
    hide ToInt;
    if p >= 0 {
      DivBelow(p, 1000, range);
      DivShrinks(p, range);
    } else {
      DivShrinks(-p, range);
      WrapNegative(TruncDiv(p, range));
    }
  }

  lemma WrapNegative(q: int)
    requires -INT_LIMIT <= q <= 0
    ensures ToInt(q + DEF_MINVAL) != DEF_MAXVAL
  {
  }

  /** A range is normalised exactly when its width times 1000 fits an int. */
  lemma NormalisesIffFits(min: int, max: int)
    requires IsInt(min) && IsInt(max) && min < max
    ensures Normalises(min, max) <==> (max - min) * DEF_RANGE < INT_LIMIT
  {
    hide MapRange;
    if (max - min) * DEF_RANGE < INT_LIMIT {
      MapRangeIs(min, max, min);
      MapRangeIs(min, max, max);
      DivExact(1000, max - min);
      DivExact(0, max - min);
      forall v | min <= v <= max ensures DEF_MINVAL <= MapRange(min, max, v) <= DEF_MAXVAL { MapRangeIs(min, max, v); }
      forall v, w | min <= v <= w <= max
        ensures MapRange(min, max, v) <= MapRange(min, max, w)
      {
        MapRangeMono(min, max, v, w);
      }
    } else {
      OverflowMisses(min, max);
    }
  }

  // ---- read_device ------------------------------------------------------------------------

  /** The device flags applied to a motion input: axes first, then signs. Flags are only set on six-axis devices. */
  function ReadDevice(swap: bool, inv: bool, inp: Event): Event
    requires swap && inp.Motion? ==> 0 <= inp.idx < 6
  {
    match inp
    case Motion(i, val) =>
      var idx := if swap then SwapYz(i) else i;
      Motion(idx, if inv && idx != 0 && idx != 3 then -val else val)
    case Button(i, val) => inp
    case Flush => inp
  }

  /**
   What the pipeline receives from a six-axis device whose ranges fit: every value
   lies in -500..500, y and z change places if the device swaps them, and on each axis
   the order of values is kept, or on y and z reversed as a whole.
   */
  lemma NormalisedInput(swap: bool, inv: bool, min: int, max: int, a: int, v: int, w: int)
    requires IsInt(min) && IsInt(max) && min < max && (max - min) * DEF_RANGE < INT_LIMIT
    requires 0 <= a < 6 && min <= v <= w <= max
    ensures var x := ReadDevice(swap, inv, Motion(a, MapRange(min, max, v)));
            var y := ReadDevice(swap, inv, Motion(a, MapRange(min, max, w)));
            && x.idx == y.idx && 0 <= x.idx < 6
            && DEF_MINVAL <= x.val <= DEF_MAXVAL && DEF_MINVAL <= y.val <= DEF_MAXVAL
            && (if inv && x.idx != 0 && x.idx != 3 then y.val <= x.val else x.val <= y.val)
            && x.idx == (if swap then [0, 2, 1, 3, 5, 4][a] else a)
            && x.val == (if inv && x.idx in [1, 2, 4, 5] then -MapRange(min, max, v) else MapRange(min, max, v))
    ensures forall b, r, s :: 0 <= b < 6 && b != a ==>
              ReadDevice(swap, inv, Motion(a, r)).idx != ReadDevice(swap, inv, Motion(b, s)).idx
  {
    hide MapRange;
    MapRangeIs(min, max, v);
    MapRangeIs(min, max, w);
    MapRangeMono(min, max, v, w);
  }
}
