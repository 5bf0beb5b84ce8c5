/**
 What the packets of serial devices carry, told from the wire format: which axis values
 and which buttons their bytes stand for.
 */
module SerialWire {
  import opened Inputs
  import opened SerialFraming
  import opened SerialPackets
  import opened SerialDevice

  predicate IsShort(v: int) { -0x8000 <= v < 0x8000 }

  predicate Shorts(v: seq<int>) { |v| == 6 && forall i :: 0 <= i < 6 ==> IsShort(v[i]) }

  // ---- spaceball axes -------------------------------------------------------------------

  /** A short on the wire: two's complement, the high byte first. */
  ghost predicate ShortAt(d: seq<Byte>, at: nat, v: int)
    requires at + 2 <= |d|
  {
    var u := if v < 0 then v + 0x10000 else v;
    d[at] as int == u / 256 && d[at + 1] as int == u % 256
  }

  /** The data of a D packet: two period bytes, whatever they are, then the six axes. */
  ghost predicate SballData(d: seq<Byte>, v: seq<int>) {
    |d| == 14 && Shorts(v) && forall i :: 0 <= i < 6 ==> ShortAt(d, 2 + 2 * i, v[i])
  }

  lemma ShortIs(d: seq<Byte>, at: nat, v: int)
    requires at + 2 <= |d| && IsShort(v) && ShortAt(d, at, v)
    ensures Short(d[at] as int * 256 + d[at + 1] as int) == v
  {
    var u := if v < 0 then v + 0x10000 else v;
    ShortOf(u, v);
  }

  lemma ShortOf(u: int, v: int)
    requires IsShort(v) && (u == v || u == v + 0x10000)
    ensures Short(u) == v
  {
  }

  // ---- magellan axes ----------------------------------------------------------------------

  /** The low halves of the four bytes from `at` on are the digits of n in base 16. */
  ghost predicate DigitsAt(d: seq<Byte>, at: nat, n: int)
    requires at + 4 <= |d|
  {
    && Low(d[at + 3]) == n % 16
    && Low(d[at + 2]) == n / 16 % 16
    && Low(d[at + 1]) == n / 16 / 16 % 16
    && Low(d[at]) == n / 16 / 16 / 16
  }

  function Low(b: Byte): int { b as int % 16 }

  /** The data of a d packet: four digits an axis, biased by 0x8000. */
  ghost predicate MagData(d: seq<Byte>, v: seq<int>) {
    |d| == 24 && Shorts(v) && forall i :: 0 <= i < 6 ==> DigitsAt(d, 4 * i, v[i] + 0x8000)
  }

  lemma NibbleIs(b: Byte)
    ensures Nibble(b) == Low(b)
  {
  }

  lemma DigitsAre(d: seq<Byte>, at: nat, n: int)
    requires at + 4 <= |d| && DigitsAt(d, at, n)
    ensures Nibble(d[at]) * 0x1000 + Nibble(d[at + 1]) * 0x100 + Nibble(d[at + 2]) * 0x10 + Nibble(d[at + 3]) == n
  {
    hide Low, Nibble;
    NibbleIs(d[at]);
    NibbleIs(d[at + 1]);
    NibbleIs(d[at + 2]);
    NibbleIs(d[at + 3]);
  }

  // ---- axes ----------------------------------------------------------------------------------

  /** A D packet carries the six values it was made of, whatever its period and the state before. */
  lemma SballMotion(d: Dev, t: seq<Byte>, v: seq<int>)
    requires d.Valid() && SballData(t, v)
    ensures Parse(false, d, Packet(0x44, t)).dev == d.(mot := v)
  {
    hide ShortAt, MotionEvents, Short;
    forall i | 0 <= i < 6 ensures SballAxes(t)[i] == v[i] {
      ShortIs(t, 2 + 2 * i, v[i]);
    }
    assert SballAxes(t) == v;
  }

  /**
   A listener hears what the ball did: when the bytes end in a D packet, however they are
   split (with short tails), the device and its listener have the values of that packet.
   */
  lemma WireMotion(s: Snap, ps: seq<Packet>, t: seq<Byte>, v: seq<int>, chunks: seq<seq<Byte>>)
    requires s.dev.Valid() && SballData(t, v)
    requires forall p :: p in ps ==> p.id != CR
    requires Flatten(chunks) == EncodeAll(ps + [Packet(0x44, t)]) && TailsStayShort([], chunks)
    ensures var r := After(false, s, Delivered([], chunks));
            && r.dev.mot == v && s.log <= r.log
            && Replay(Shadow(s.dev.mot, s.dev.keys), r.log[|s.log|..]).mot == v
  {
    hide Delivered, EncodeAll, Flatten, TailsStayShort, Parse, PushAll, Replay, SballData, After;
    var p := Packet(0x44, t);
    WireToListener(s, ps + [p], chunks);
    assert (ps + [p])[..|ps|] == ps;
    SballMotion(ParseAll(false, s.dev, ps).dev, t, v);
  }

  // the z axes come the other way round; a short cannot hold the opposite of -0x8000
  function Turned(i: int, v: int): int {
    if (i == 2 || i == 5) && v != -0x8000 then -v else v
  }

  /** A d packet carries the six values it was made of, with z and rz turned. */
  lemma MagMotion(d: Dev, t: seq<Byte>, v: seq<int>)
    requires d.Valid() && MagData(t, v)
    ensures Parse(true, d, Packet(0x64, t)).dev == d.(mot := seq(6, i requires 0 <= i < 6 => Turned(i, v[i])))
  {
    hide DigitsAt, MotionEvents, Nibble, Short;
    var m := seq(6, i requires 0 <= i < 6 => Turned(i, v[i]));
    forall i | 0 <= i < 6 ensures MagAxes(t)[i] == m[i] {
      DigitsAre(t, 4 * i, v[i] + 0x8000);
      ShortTurned(v[i]);
    }
    assert MagAxes(t) == m;
  }

  lemma ShortTurned(v: int)
    requires IsShort(v)
    ensures Short(-v) == if v == -0x8000 then v else -v
  {
  }

  // ---- buttons -------------------------------------------------------------------------------

  /** Bit j of a byte. */
  predicate On(b: Byte, j: int)
    requires 0 <= j < 8
  {
    b as int / [1, 2, 4, 8, 16, 32, 64, 128][j] % 2 == 1
  }

  lemma OnIs(b: Byte, j: int)
    requires 0 <= j < 8
    ensures ByteBit(b, j) <==> On(b, j)
  {
    hide ByteBit, On;
    if j == 0 {
      OnFirst(b);
    } else if j < 4 {
      OnLow(b, j);
    } else {
      OnHigh(b, j);
    }
  }

  lemma OnFirst(b: Byte)
    ensures ByteBit(b, 0) <==> On(b, 0)
  {
    Bit0(b);
    assert [1, 2, 4, 8, 16, 32, 64, 128][0] == 1;
  }

  lemma OnLow(b: Byte, j: int)
    requires 1 <= j < 4
    ensures ByteBit(b, j) <==> On(b, j)
  {
    match j
    case 1 => Bit1(b);
    case 2 => Bit2(b);
    case 3 => Bit3(b);
  }

  lemma OnHigh(b: Byte, j: int)
    requires 4 <= j < 8
    ensures ByteBit(b, j) <==> On(b, j)
  {
    match j
    case 4 => Bit4(b);
    case 5 => Bit5(b);
    case 6 => Bit6(b);
    case 7 => Bit7(b);
  }

  lemma Bit0(b: Byte)
    ensures b & 1 != 0 <==> b as int % 2 == 1
  {
  }

  lemma Bit1(b: Byte)
    ensures b & 2 != 0 <==> b as int / 2 % 2 == 1
  {
    var x: Byte := b / 2;
    assert x & 1 != 0 <==> b & 2 != 0;
    Quotient1(b);
    Bit0(x);
  }

  lemma Quotient1(b: Byte)
    ensures (b / 2) as int == b as int / 2
  {
  }

  lemma Bit2(b: Byte)
    ensures b & 4 != 0 <==> b as int / 4 % 2 == 1
  {
    var x: Byte := b / 4;
    assert x & 1 != 0 <==> b & 4 != 0;
    Quotient2(b);
    Bit0(x);
  }

  lemma Quotient2(b: Byte)
    ensures (b / 4) as int == b as int / 4
  {
  }

  lemma Bit3(b: Byte)
    ensures b & 8 != 0 <==> b as int / 8 % 2 == 1
  {
    var x: Byte := b / 8;
    assert x & 1 != 0 <==> b & 8 != 0;
    Quotient3(b);
    Bit0(x);
  }

  lemma Quotient3(b: Byte)
    ensures (b / 8) as int == b as int / 8
  {
  }

  lemma Bit4(b: Byte)
    ensures b & 16 != 0 <==> b as int / 16 % 2 == 1
  {
    var x: Byte := b / 16;
    assert x & 1 != 0 <==> b & 16 != 0;
    Quotient4(b);
    Bit0(x);
  }

  lemma Quotient4(b: Byte)
    ensures (b / 16) as int == b as int / 16
  {
  }

  lemma Bit5(b: Byte)
    ensures b & 32 != 0 <==> b as int / 32 % 2 == 1
  {
    var x: Byte := b / 32;
    assert x & 1 != 0 <==> b & 32 != 0;
    Quotient5(b);
    Bit0(x);
  }

  lemma Quotient5(b: Byte)
    ensures (b / 32) as int == b as int / 32
  {
  }

  lemma Bit6(b: Byte)
    ensures b & 64 != 0 <==> b as int / 64 % 2 == 1
  {
    var x: Byte := b / 64;
    assert x & 1 != 0 <==> b & 64 != 0;
    Quotient6(b);
    Bit0(x);
  }

  lemma Quotient6(b: Byte)
    ensures (b / 64) as int == b as int / 64
  {
  }

  lemma Bit7(b: Byte)
    ensures b & 128 != 0 <==> b as int / 128 % 2 == 1
  {
    var x: Byte := b / 128;
    assert x & 1 != 0 <==> b & 128 != 0;
    Quotient7(b);
    Bit0(x);
  }

  lemma Quotient7(b: Byte)
    ensures (b / 128) as int == b as int / 128
  {
  }

  lemma FieldIs(b: Byte, lo: nat, n: nat, at: nat, i: nat)
    requires lo + n <= 8 && i < 16
    ensures Field(b, lo, n, at)[i] <==> at <= i < at + n && On(b, lo + i - at)
  {
    hide ByteBit, On;
    if at <= i < at + n { OnIs(b, lo + i - at); }
  }

  /** A K packet of a spaceball without the 4000's buttons: what each bit of its two bytes means. */
  lemma SballKeys(d: Dev, a: Byte, b: Byte)
    requires d.Valid() && !d.sb4000
    ensures var e := Parse(false, d, Packet(0x4b, [a, b])).dev;
            && e == d.(keys := e.keys)
            && forall i :: 0 <= i < 16 ==>
                 (e.keys[i] <==>
                    && d.mask[i]
                    && ((i < 4 && On(b, i)) || (i < 2 && On(b, i + 4)) || (4 <= i < 7 && On(a, i - 4))
                        || (i == 7 && On(a, 4))))
  {
    hide Field, On, ButtonEvents, Or, And;
    forall i: nat | i < 16
      ensures Field(b, 0, 4, 0)[i] <==> i < 4 && On(b, i)
      ensures Field(b, 4, 2, 0)[i] <==> i < 2 && On(b, i + 4)
      ensures Field(a, 0, 3, 4)[i] <==> 4 <= i < 7 && On(a, i - 4)
      ensures Field(a, 4, 1, 7)[i] <==> i == 7 && On(a, 4)
    {
      FieldIs(b, 0, 4, 0, i);
      FieldIs(b, 4, 2, 0, i);
      FieldIs(a, 0, 3, 4, i);
      FieldIs(a, 4, 1, 7, i);
    }
  }

  /** A '.' packet: what each bit means on a device with twelve buttons, which the first one makes of the device. */
  lemma TwelveKeys(d: Dev, a: Byte, b: Byte)
    requires d.Valid()
    ensures var e := Parse(false, d, Packet(0x2e, [a, b])).dev;
            && e.mot == d.mot && e.sb4000 && e.numButtons == (if d.sb4000 then d.numButtons else 12)
            && (forall i :: 0 <= i < 16 ==> e.mask[i] == if d.sb4000 then d.mask[i] else i < 12)
            && forall i :: 0 <= i < 16 ==>
                 (e.keys[i] <==> (i < 6 && On(b, i)) || (i == 6 && On(b, 7)) || (7 <= i < 12 && On(a, i - 7)))
  {
    hide Field, On, ButtonEvents, Or, Lowest;
    forall i: nat | i < 16
      ensures Field(b, 0, 6, 0)[i] <==> i < 6 && On(b, i)
      ensures Field(b, 7, 1, 6)[i] <==> i == 6 && On(b, 7)
      ensures Field(a, 0, 5, 7)[i] <==> 7 <= i < 12 && On(a, i - 7)
    {
      FieldIs(b, 0, 6, 0, i);
      FieldIs(b, 7, 1, 6, i);
      FieldIs(a, 0, 5, 7, i);
    }
  }

  /** A k packet: the low halves of its bytes are four buttons each. */
  lemma MagKeys(d: Dev, t: seq<Byte>)
    requires d.Valid() && |t| >= 3
    ensures var o := Parse(true, d, Packet(0x6b, t));
            && o.dev == d.(keys := o.dev.keys)
            && forall i :: 0 <= i < 16 ==> (o.dev.keys[i] <==> i / 4 < |t| && On(t[i / 4], i % 4))
  {
    hide Field, On, ButtonEvents, Or;
    forall i: nat | i < 16
      ensures Field(t[0], 0, 4, 0)[i] <==> i < 4 && On(t[0], i)
      ensures Field(t[1], 0, 4, 4)[i] <==> 4 <= i < 8 && On(t[1], i - 4)
      ensures Field(t[2], 0, 4, 8)[i] <==> 8 <= i < 12 && On(t[2], i - 8)
      ensures |t| > 3 ==> (Field(t[3], 0, 4, 12)[i] <==> 12 <= i && On(t[3], i - 12))
    {
      FieldIs(t[0], 0, 4, 0, i);
      FieldIs(t[1], 0, 4, 4, i);
      FieldIs(t[2], 0, 4, 8, i);
      if |t| > 3 { FieldIs(t[3], 0, 4, 12, i); }
    }
  }

  /** Every other packet is ignored. */
  lemma OtherIgnored(mag: bool, d: Dev, p: Packet)
    requires d.Valid()
    requires if mag then !(p.id == 0x64 && |p.data| == 24) && !(p.id == 0x6b && |p.data| >= 3)
             else !(p.id == 0x44 && |p.data| == 14) && !(p.id == 0x2e && |p.data| == 2)
                  && !(p.id == 0x4b && |p.data| == 2 && !d.sb4000)
    ensures Parse(mag, d, p) == Outcome(d, [])
  {
  }

  // ---- events ---------------------------------------------------------------------------------

  /** The event tells a change: the new value of an axis, 1 for a button pressed and 0 for one released, or a flush. */
  predicate Tells(e: Event, was: Dev, now: Dev)
    requires was.Valid() && now.Valid()
  {
    match e
    case Motion(i, x) => 0 <= i < 6 && x == now.mot[i] != was.mot[i]
    case Button(i, x) => 0 <= i < 16 && now.keys[i] != was.keys[i] && x == if now.keys[i] then 1 else 0
    case Flush => true
  }

  lemma {:induction false} ButtonTold(was: Word, now: Word, i: nat)
    requires i <= 16
    ensures forall e :: e in ButtonEvents(was, now, i) ==>
              e.Button? && i <= e.idx < 16 && now[e.idx] != was[e.idx] && e.val == if now[e.idx] then 1 else 0
    ensures forall b :: i <= b < 16 && now[b] != was[b] ==>
              Button(b, if now[b] then 1 else 0) in ButtonEvents(was, now, i)
    decreases 16 - i
  {
    if i < 16 { ButtonTold(was, now, i + 1); }
  }

  /** A packet causes exactly the events of its changes: what they tell is so, and every change is told. */
  lemma EventsTell(mag: bool, d: Dev, p: Packet)
    requires d.Valid()
    ensures var o := Parse(mag, d, p);
            && (forall e :: e in o.events ==> Tells(e, d, o.dev))
            && (forall i :: 0 <= i < 6 && o.dev.mot[i] != d.mot[i] ==> Motion(i, o.dev.mot[i]) in o.events)
            && (forall i :: 0 <= i < 16 && o.dev.keys[i] != d.keys[i] ==>
                  Button(i, if o.dev.keys[i] then 1 else 0) in o.events)
  {
    hide SballAxes, MagAxes, KeysK, KeysDot, KeysMag, AxisEvents, ButtonEvents, And, Lowest;
    var o := Parse(mag, d, p);
    AxisEventsShape(d.mot, o.dev.mot, 0);
    ButtonTold(d.keys, o.dev.keys, 0);
  }

  // ---- escapes -------------------------------------------------------------------------------

  /** ^Q, ^S, ^M and ^^ stand for XON, XOFF, CR and ^; any other pair, and a ^ at the end, for nothing. */
  lemma EscapeTable(x: Byte, rest: seq<Byte>)
    ensures Decode([0x5e]) == []
    ensures Decode([0x5e, x] + rest) ==
            (if x == 0x51 then [0x11] else if x == 0x53 then [0x13] else if x == 0x4d then [0x0d]
             else if x == 0x5e then [0x5e] else []) + Decode(rest)
    ensures x != 0x5e ==> Decode([x] + rest) == [x] + Decode(rest)
  {
    assert ([0x5e, x] + rest)[2..] == rest && ([x] + rest)[1..] == rest;
  }
}
