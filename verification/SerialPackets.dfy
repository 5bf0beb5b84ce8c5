/**
 What the packets of a serial device mean: a shadow of the device's axes and
 buttons, and the input events that tell each change to the rest of the daemon.
 */
module SerialPackets {
  import opened Inputs
  import opened SerialFraming

  /** The part of struct sball (and its device) that packets change. */
  datatype Dev = Dev(mot: seq<int>, keys: Word, mask: Word, sb4000: bool, numButtons: int) {
    predicate Valid() { |mot| == 6 }
  }

  /** A set of buttons: the bits 0-15 of keystate and keymask. */
  type Word = w: seq<bool> | |w| == 16 witness seq(16, _ => false)

  datatype Outcome = Outcome(dev: Dev, events: seq<Event>)

  // ---- axes ----------------------------------------------------------------------

  // conversion to a 16-bit short
  function Short(n: int): int { (n + 0x8000) % 0x10000 - 0x8000 }

  /** One motion event per changed axis, from axis i on. */
  function AxisEvents(was: seq<int>, now: seq<int>, i: nat): seq<Event>
    requires |was| == |now| == 6 && i <= 6
    decreases 6 - i
  {
    if i == 6 then []
    else (if now[i] != was[i] then [Motion(i, now[i])] else []) + AxisEvents(was, now, i + 1)
  }

  /** A motion packet: the changed axes, and a flush if there are any. */
  function MotionEvents(was: seq<int>, now: seq<int>): seq<Event>
    requires |was| == |now| == 6
  {
    var es := AxisEvents(was, now, 0);
    if es == [] then [] else es + [Flush]
  }

  // spaceball: big-endian shorts after the two period bytes
  function SballAxes(d: seq<Byte>): (m: seq<int>)
    requires |d| == 14
    ensures |m| == 6
  {
    seq(6, i requires 0 <= i < 6 => Short(d[2 + 2 * i] as int * 256 + d[3 + 2 * i] as int))
  }

  function Nibble(b: Byte): int { (b & 0xf) as int }

  // magellan: four nibbles an axis, biased; z and rz are flipped to match the spaceball
  function MagAxes(d: seq<Byte>): (m: seq<int>)
    requires |d| == 24
    ensures |m| == 6
  {
    seq(6, i requires 0 <= i < 6 =>
      var v :=
        Nibble(d[4 * i]) * 0x1000 + Nibble(d[4 * i + 1]) * 0x100 + Nibble(d[4 * i + 2]) * 0x10
        + Nibble(d[4 * i + 3]) - 0x8000;
      if i == 2 || i == 5 then Short(-v) else v)
  }

  // ---- buttons ---------------------------------------------------------------------

  // bit j of a byte
  predicate ByteBit(b: Byte, j: int) {
    b & (if j == 0 then 1 else if j == 1 then 2 else if j == 2 then 4 else if j == 3 then 8
         else if j == 4 then 0x10 else if j == 5 then 0x20 else if j == 6 then 0x40 else 0x80) != 0
  }

  // n bits of b from bit lo on, moved to bit `at`
  function Field(b: Byte, lo: nat, n: nat, at: nat): (w: Word)
    ensures forall i :: 0 <= i < 16 && !(at <= i < at + n) ==> !w[i]
  {
    seq(16, i => at <= i < at + n && ByteBit(b, lo + i - at))
  }

  function Or(a: Word, b: Word): (w: Word)
    ensures forall i :: 0 <= i < 16 ==> w[i] == (a[i] || b[i])
  {
    seq(16, i requires 0 <= i < 16 => a[i] || b[i])
  }

  function And(a: Word, b: Word): (w: Word)
    ensures forall i :: 0 <= i < 16 ==> w[i] == (a[i] && b[i])
  {
    seq(16, i requires 0 <= i < 16 => a[i] && b[i])
  }

  // 0xffff >> (16 - n): the lowest n bits
  function Lowest(n: int): (w: Word)
    ensures forall i :: 0 <= i < 16 ==> w[i] == (i < n)
  {
    seq(16, i => i < n)
  }

  /** One button event per changed bit, from bit i on. */
  function ButtonEvents(was: Word, now: Word, i: nat): seq<Event>
    requires i <= 16
    decreases 16 - i
  {
    if i == 16 then []
    else (if now[i] != was[i] then [Button(i, if now[i] then 1 else 0)] else []) + ButtonEvents(was, now, i + 1)
  }

  function Pressed(d: Dev, keys: Word): Outcome {
    Outcome(d.(keys := keys), ButtonEvents(d.keys, keys, 0))
  }

  // K packet: buttons 0-3, the 3003's left and right, 4-6, and the 2003's pick button
  function KeysK(d0: Byte, d1: Byte): (w: Word)
    ensures forall i :: 8 <= i < 16 ==> !w[i]
  {
    Or(Or(Or(Field(d1, 0, 4, 0), Field(d1, 4, 2, 0)), Field(d0, 0, 3, 4)), Field(d0, 4, 1, 7))
  }

  // '.' packet of the 4000: twelve buttons
  function KeysDot(d0: Byte, d1: Byte): (w: Word)
    ensures forall i :: 12 <= i < 16 ==> !w[i]
  {
    Or(Or(Field(d1, 0, 6, 0), Field(d1, 7, 1, 6)), Field(d0, 0, 5, 7))
  }

  function KeysMag(d: seq<Byte>): Word
    requires |d| >= 3
  {
    var w := Or(Or(Field(d[0], 0, 4, 0), Field(d[1], 0, 4, 4)), Field(d[2], 0, 4, 8));
    if |d| > 3 then Or(w, Field(d[3], 0, 4, 12)) else w
  }

  // ---- packets -----------------------------------------------------------------------

  /** sball_parsepkt on the decoded data. */
  function ParseSball(d: Dev, p: Packet): (o: Outcome)
    requires d.Valid()
    ensures o.dev.Valid()
  {
    if p.id == 0x44 && |p.data| == 14 then                           // D
      Outcome(d.(mot := SballAxes(p.data)), MotionEvents(d.mot, SballAxes(p.data)))
    else if p.id == 0x4b && |p.data| == 2 then                       // K
      if d.sb4000 then Outcome(d, []) else Pressed(d, And(KeysK(p.data[0], p.data[1]), d.mask))
    else if p.id == 0x2e && |p.data| == 2 then                       // .
      var e := if d.sb4000 then d else d.(sb4000 := true, numButtons := 12, mask := Lowest(12));
      Pressed(e, KeysDot(p.data[0], p.data[1]))
    else Outcome(d, [])
  }

  /** mag_parsepkt; the data is used as it is. */
  function ParseMag(d: Dev, p: Packet): (o: Outcome)
    requires d.Valid()
    ensures o.dev.Valid()
  {
    if p.id == 0x64 && |p.data| == 24 then                           // d
      Outcome(d.(mot := MagAxes(p.data)), MotionEvents(d.mot, MagAxes(p.data)))
    else if p.id == 0x6b && |p.data| >= 3 then Pressed(d, KeysMag(p.data))  // k
    else Outcome(d, [])
  }

  function Parse(mag: bool, d: Dev, p: Packet): (o: Outcome)
    requires d.Valid()
    ensures o.dev.Valid()
  {
    if mag then ParseMag(d, p) else ParseSball(d, p)
  }

  function ParseAll(mag: bool, d: Dev, ps: seq<Packet>): (o: Outcome)
    requires d.Valid()
    ensures o.dev.Valid()
  {
    if ps == [] then Outcome(d, [])
    else
      var before := ParseAll(mag, d, ps[..|ps| - 1]);
      var last := Parse(mag, before.dev, ps[|ps| - 1]);
      Outcome(last.dev, before.events + last.events)
  }

  // ---- replay ---------------------------------------------------------------------------

  /** A listener's picture of the device, drawn from events alone. */
  datatype Shadow = Shadow(mot: seq<int>, keys: Word)

  function Hear(s: Shadow, e: Event): Shadow {
    match e
    case Motion(i, v) => if 0 <= i < |s.mot| then s.(mot := s.mot[i := v]) else s
    case Button(i, v) => if 0 <= i < 16 then s.(keys := s.keys[i := v != 0]) else s
    case Flush => s
  }

  function Replay(s: Shadow, es: seq<Event>): Shadow
    decreases |es|
  {
    if es == [] then s else Replay(Hear(s, es[0]), es[1..])
  }

  lemma {:induction false} ReplayConcat(s: Shadow, a: seq<Event>, b: seq<Event>)
    ensures Replay(s, a + b) == Replay(Replay(s, a), b)
    decreases |a|
  {
    hide Hear;
    if a == [] {
      assert a + b == b;
    } else {
      assert (a + b)[1..] == a[1..] + b;
      ReplayConcat(Hear(s, a[0]), a[1..], b);
    }
  }

  // the low i axes already new
  function MixAxes(was: seq<int>, now: seq<int>, i: nat): (m: seq<int>)
    requires |was| == |now| == 6 && i <= 6
  {
    now[..i] + was[i..]
  }

  lemma {:induction false} ReplayAxes(was: seq<int>, now: seq<int>, i: nat, keys: Word)
    requires |was| == |now| == 6 && i <= 6
    ensures Replay(Shadow(MixAxes(was, now, i), keys), AxisEvents(was, now, i)) == Shadow(now, keys)
    decreases 6 - i
  {
    if i < 6 {
      ReplayAxes(was, now, i + 1, keys);
      var s := Shadow(MixAxes(was, now, i), keys);
      var rest := AxisEvents(was, now, i + 1);
      assert MixAxes(was, now, i + 1) == MixAxes(was, now, i)[i := now[i]];
      if now[i] != was[i] {
        assert ([Motion(i, now[i])] + rest)[1..] == rest;
      } else {
        assert MixAxes(was, now, i)[i := now[i]] == MixAxes(was, now, i);
        assert [] + rest == rest;
      }
    } else {
      assert MixAxes(was, now, 6) == now;
    }
  }

  // the low i bits already new
  function MixKeys(was: Word, now: Word, i: nat): Word
    requires i <= 16
  {
    now[..i] + was[i..]
  }

  lemma {:induction false} ReplayButtons(was: Word, now: Word, i: nat, mot: seq<int>)
    requires i <= 16
    ensures Replay(Shadow(mot, MixKeys(was, now, i)), ButtonEvents(was, now, i)) == Shadow(mot, now)
    decreases 16 - i
  {
    if i < 16 {
      ReplayButtons(was, now, i + 1, mot);
      var rest := ButtonEvents(was, now, i + 1);
      assert MixKeys(was, now, i + 1) == MixKeys(was, now, i)[i := now[i]];
      if now[i] != was[i] {
        assert ButtonEvents(was, now, i)[1..] == rest;
      } else {
        assert MixKeys(was, now, i)[i := now[i]] == MixKeys(was, now, i);
        assert [] + rest == rest;
      }
    } else {
      assert MixKeys(was, now, 16) == now;
    }
  }

  /** The events of one packet tell a listener exactly what the packet changed. */
  lemma ReplayPacket(mag: bool, d: Dev, p: Packet)
    requires d.Valid()
    ensures var o := Parse(mag, d, p);
            Replay(Shadow(d.mot, d.keys), o.events) == Shadow(o.dev.mot, o.dev.keys)
  {
    hide KeysK, KeysDot, KeysMag, SballAxes, MagAxes, MixKeys, Replay, MotionEvents, ButtonEvents, Hear;
    ReplayNone(Shadow(d.mot, d.keys));
    var o := Parse(mag, d, p);
    ReplayMotion(d.mot, o.dev.mot, d.keys);
    ReplayPress(d.mot, d.keys, o.dev.keys);
  }

  lemma ReplayMotion(was: seq<int>, now: seq<int>, keys: Word)
    requires |was| == |now| == 6
    ensures Replay(Shadow(was, keys), MotionEvents(was, now)) == Shadow(now, keys)
  {
    hide AxisEvents, Replay;
    var es := AxisEvents(was, now, 0);
    ReplayFlush(Shadow(now, keys));
    assert MixAxes(was, now, 0) == was;
    ReplayAxes(was, now, 0, keys);
    ReplayConcat(Shadow(was, keys), es, [Flush]);
  }

  lemma ReplayFlush(s: Shadow)
    ensures Replay(s, [Flush]) == s
  {
    assert [Flush][1..] == [];
  }

  lemma ReplayPress(mot: seq<int>, was: Word, now: Word)
    ensures Replay(Shadow(mot, was), ButtonEvents(was, now, 0)) == Shadow(mot, now)
  {
    assert MixKeys(was, now, 0) == was;
    ReplayButtons(was, now, 0, mot);
  }

  /** Replaying every event of a run of packets reproduces the device's axes and buttons. */
  lemma {:induction false} ReplayRun(mag: bool, d: Dev, ps: seq<Packet>)
    requires d.Valid()
    ensures var o := ParseAll(mag, d, ps);
            Replay(Shadow(d.mot, d.keys), o.events) == Shadow(o.dev.mot, o.dev.keys)
  {
    hide Parse, Replay;
    if ps == [] {
      ReplayNone(Shadow(d.mot, d.keys));
    } else {
      var before := ParseAll(mag, d, ps[..|ps| - 1]);
      ReplayRun(mag, d, ps[..|ps| - 1]);
      ReplayPacket(mag, before.dev, ps[|ps| - 1]);
      ReplayConcat(Shadow(d.mot, d.keys), before.events, Parse(mag, before.dev, ps[|ps| - 1]).events);
    }
  }

  lemma ReplayNone(s: Shadow)
    ensures Replay(s, []) == s
  {
  }

  // ---- the shape of the events ----------------------------------------------------------------

  lemma {:induction false} AxisEventsShape(was: seq<int>, now: seq<int>, i: nat)
    requires |was| == |now| == 6 && i <= 6
    ensures forall e :: e in AxisEvents(was, now, i) ==>
              e.Motion? && i <= e.idx < 6 && e.val == now[e.idx] != was[e.idx]
    ensures forall a :: i <= a < 6 && now[a] != was[a] ==> Motion(a, now[a]) in AxisEvents(was, now, i)
    ensures (forall a :: i <= a < 6 ==> now[a] == was[a]) ==> AxisEvents(was, now, i) == []
    decreases 6 - i
  {
    if i < 6 { AxisEventsShape(was, now, i + 1); }
  }

  /**
   A motion packet that changes something enqueues its changed axes and exactly one flush, at the
   end; otherwise nothing.
   */
  lemma OneFlush(was: seq<int>, now: seq<int>)
    requires |was| == |now| == 6
    ensures var es := MotionEvents(was, now);
            && (es == [] <==> was == now)
            && (es != [] ==> es[|es| - 1] == Flush && forall i :: 0 <= i < |es| - 1 ==> es[i].Motion?)
  {
    hide AxisEvents;
    AxisEventsShape(was, now, 0);
    if was != now {
      var a :| 0 <= a < 6 && was[a] != now[a];
      assert Motion(a, now[a]) in AxisEvents(was, now, 0);
    }
  }

  lemma {:induction false} ButtonEventsShape(was: Word, now: Word, i: nat)
    requires i <= 16
    ensures forall e :: e in ButtonEvents(was, now, i) ==> e.Button? && i <= e.idx < 16 && now[e.idx] != was[e.idx]
    decreases 16 - i
  {
    if i < 16 { ButtonEventsShape(was, now, i + 1); }
  }

  /** What a spaceball keeps: no button beyond the count, and none beyond twelve. */
  predicate SballOk(d: Dev) {
    && d.Valid() && d.mask == Lowest(d.numButtons)
    && (d.sb4000 ==> d.numButtons == 12)
    && forall i :: 0 <= i < 16 && d.keys[i] ==> i < d.numButtons && i < 12
  }

  /**
   Every button event of a spaceball is about a button below the current count, even when a packet
   raises it to twelve.
   */
  lemma ButtonsInRange(d: Dev, p: Packet)
    requires SballOk(d)
    ensures var o := ParseSball(d, p);
            && SballOk(o.dev)
            && forall e :: e in o.events && e.Button? ==> 0 <= e.idx < o.dev.numButtons
  {
    hide ButtonEvents, KeysK, KeysDot, SballAxes, MotionEvents;
    var o := ParseSball(d, p);
    if p.id == 0x44 && |p.data| == 14 {
      OneFlush(d.mot, o.dev.mot);
    } else {
      ButtonEventsShape(d.keys, o.dev.keys, 0);
    }
  }

  lemma {:induction false} ButtonsInRangeRun(d: Dev, ps: seq<Packet>)
    requires SballOk(d)
    ensures SballOk(ParseAll(false, d, ps).dev)
    ensures forall k :: 0 <= k < |ps| ==>
              var before := ParseAll(false, d, ps[..k]).dev;
              var o := ParseSball(before, ps[k]);
              forall e :: e in o.events && e.Button? ==> 0 <= e.idx < o.dev.numButtons
  {
    hide ParseSball;
    if ps != [] {
      var n := |ps| - 1;
      ButtonsInRangeRun(d, ps[..n]);
      ButtonsInRange(ParseAll(false, d, ps[..n]).dev, ps[n]);
      forall k | 0 <= k < n ensures ps[..n][..k] == ps[..k] && ps[..n][k] == ps[k] {}
      forall k | 0 <= k < |ps|
        ensures var before := ParseAll(false, d, ps[..k]).dev;
                var o := ParseSball(before, ps[k]);
                forall e :: e in o.events && e.Button? ==> 0 <= e.idx < o.dev.numButtons
      {
        if k < n { assert ps[..n][..k] == ps[..k]; }
      }
    }
  }

  // ---- the event queue ---------------------------------------------------------------------------

  const QUEUE := 63   // EVQUEUE_SZ - 1 events fit

  /** Enqueue, dropping the oldest event when the queue is full. */
  function Push(q: seq<Event>, e: Event): seq<Event> {
    if |q| < QUEUE then q + [e] else q[1..] + [e]
  }

  function PushAll(q: seq<Event>, es: seq<Event>): seq<Event> {
    if es == [] then q else Push(PushAll(q, es[..|es| - 1]), es[|es| - 1])
  }

  function Newest(s: seq<Event>): seq<Event> { if |s| <= QUEUE then s else s[|s| - QUEUE..] }

  /** Pushing events onto a queue leaves the newest 63 of all of them. */
  lemma {:induction false} PushAllNewest(q: seq<Event>, es: seq<Event>)
    requires |q| <= QUEUE
    ensures PushAll(q, es) == Newest(q + es)
  {
    if es == [] {
      assert q + es == q;
    } else {
      PushAllNewest(q, es[..|es| - 1]);
      assert q + es == q + es[..|es| - 1] + [es[|es| - 1]];
    }
  }

  lemma {:induction false} PushAllConcat(q: seq<Event>, a: seq<Event>, b: seq<Event>)
    ensures PushAll(q, a + b) == PushAll(PushAll(q, a), b)
  {
    hide Push;
    if b == [] {
      assert a + b == a;
    } else {
      assert (a + b)[..|a + b| - 1] == a + b[..|b| - 1];
      PushAllConcat(q, a, b[..|b| - 1]);
    }
  }

  /** The producer enqueues, the daemon reads one event at a time. */
  datatype QueueOp = Enqueue(e: Event) | Dequeue

  datatype Queue = Queue(q: seq<Event>, got: seq<Event>)

  function QueueStep(s: Queue, op: QueueOp): Queue {
    match op
    case Enqueue(e) => s.(q := Push(s.q, e))
    case Dequeue => if s.q == [] then s else Queue(s.q[1..], s.got + [s.q[0]])
  }

  function QueueRun(ops: seq<QueueOp>): Queue {
    if ops == [] then Queue([], []) else QueueStep(QueueRun(ops[..|ops| - 1]), ops[|ops| - 1])
  }

  function Enqueued(ops: seq<QueueOp>): seq<Event> {
    if ops == [] then []
    else Enqueued(ops[..|ops| - 1]) + match ops[|ops| - 1] case Enqueue(e) => [e] case Dequeue => []
  }

  // how many events were enqueued into a full queue
  function Dropped(ops: seq<QueueOp>): nat {
    if ops == [] then 0
    else
      var pre := ops[..|ops| - 1];
      Dropped(pre) + if ops[|ops| - 1].Enqueue? && |QueueRun(pre).q| >= QUEUE then 1 else 0
  }

  ghost predicate Conserved(s: Queue, es: seq<Event>, lost: nat) {
    && |s.q| <= QUEUE
    && |s.got| + |s.q| + lost == |es|
    && |s.q| <= |es| && s.q == es[|es| - |s.q|..]
    && (s.got + s.q == es <==> lost == 0)
  }

  lemma EnqueueConserves(s: Queue, es: seq<Event>, lost: nat, e: Event)
    requires Conserved(s, es, lost)
    ensures Conserved(s.(q := Push(s.q, e)), es + [e], lost + if |s.q| >= QUEUE then 1 else 0)
  {
    if |s.q| < QUEUE {
      assert s.got + (s.q + [e]) == s.got + s.q + [e];
      assert lost == 0 <==> s.got + s.q + [e] == es + [e] by {
        assert (s.got + s.q + [e])[..|s.got + s.q|] == s.got + s.q && (es + [e])[..|es|] == es;
      }
    }
  }

  lemma DequeueConserves(s: Queue, es: seq<Event>, lost: nat)
    requires Conserved(s, es, lost) && s.q != []
    ensures Conserved(Queue(s.q[1..], s.got + [s.q[0]]), es, lost)
  {
    assert s.got + [s.q[0]] + s.q[1..] == s.got + s.q;
  }

  /**
   Over any interleaving, what was read together with what is still queued is as
   long as what was enqueued less one event per enqueue into a full queue, the
   queue is a suffix of what was enqueued, and nothing is lost exactly when that
   never happened.
   */
  lemma {:induction false} QueueConserves(ops: seq<QueueOp>)
    ensures Conserved(QueueRun(ops), Enqueued(ops), Dropped(ops))
  {
    hide Conserved, Push;
    if ops == [] {
      NothingConserved();
    } else {
      var pre := ops[..|ops| - 1];
      QueueConserves(pre);
      match ops[|ops| - 1]
      case Enqueue(e) => EnqueueConserves(QueueRun(pre), Enqueued(pre), Dropped(pre), e);
      case Dequeue =>
        assert Enqueued(pre) + [] == Enqueued(pre);
        if QueueRun(pre).q != [] { DequeueConserves(QueueRun(pre), Enqueued(pre), Dropped(pre)); }
    }
  }

  lemma NothingConserved()
    ensures Conserved(Queue([], []), [], 0)
  {
  }
}
