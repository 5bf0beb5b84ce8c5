/**
 The serial driver itself: the input buffer, the in-place decoder, the packet
 parsers and the ring of input events, all changed in place.
 */
module SerialDevice {
  import opened Inputs
  import opened SerialFraming
  import opened SerialPackets

  const EVQUEUE_SZ := 64

  /** The events between the read and the write index of the ring, oldest first. */
  function Ring(s: seq<Event>, rd: nat, wr: nat): (q: seq<Event>)
    requires |s| == EVQUEUE_SZ && rd < EVQUEUE_SZ && wr < EVQUEUE_SZ
    ensures |q| == (if rd <= wr then wr - rd else wr + EVQUEUE_SZ - rd) <= QUEUE
    ensures forall k :: 0 <= k < |q| ==> q[k] == s[Slot(rd, k)]
  {
    if rd <= wr then s[rd..wr] else s[rd..] + s[..wr]
  }

  function Slot(rd: nat, k: nat): nat { if rd + k < EVQUEUE_SZ then rd + k else rd + k - EVQUEUE_SZ }

  function Next(i: nat): (j: nat)
    ensures i < EVQUEUE_SZ ==> j < EVQUEUE_SZ && j == Slot(i, 1)
  {
    (i + 1) % 64
  }

  lemma RingPush(s: seq<Event>, rd: nat, wr: nat, e: Event)
    requires |s| == EVQUEUE_SZ && rd < EVQUEUE_SZ && wr < EVQUEUE_SZ
    ensures var r := if Next(wr) == rd then Next(rd) else rd;
            Ring(s[wr := e], r, Next(wr)) == Push(Ring(s, rd, wr), e)
  {
    hide Next, Ring, Slot;
    var r := if Next(wr) == rd then Next(rd) else rd;
    var q := Ring(s, rd, wr);
    var a, b := Ring(s[wr := e], r, Next(wr)), Push(q, e);
    SlotEnd(rd, wr, |q|);
    assert |a| == |b| by { NextIs(rd); NextIs(wr); }
    forall k | 0 <= k < |a| ensures a[k] == b[k] {
      if |q| < QUEUE {
        SlotInside(rd, wr, |q|, k);
      } else {
        SlotShift(rd, k);
        SlotInside(rd, wr, |q|, k + 1);
      }
    }
  }

  lemma NextIs(i: nat)
    requires i < EVQUEUE_SZ
    ensures Next(i) == if i == EVQUEUE_SZ - 1 then 0 else i + 1
  {
  }

  // the write index is just behind the queued events
  lemma SlotEnd(rd: nat, wr: nat, n: nat)
    requires rd < EVQUEUE_SZ && wr < EVQUEUE_SZ && n == (if rd <= wr then wr - rd else wr + EVQUEUE_SZ - rd)
    ensures Slot(rd, n) == wr && (Next(wr) == rd <==> n == QUEUE)
  {
    hide Next;
    NextIs(wr);
  }

  lemma SlotInside(rd: nat, wr: nat, n: nat, k: nat)
    requires rd < EVQUEUE_SZ && wr < EVQUEUE_SZ && n == (if rd <= wr then wr - rd else wr + EVQUEUE_SZ - rd) && k <= n
    ensures Slot(rd, k) < EVQUEUE_SZ && (Slot(rd, k) == wr <==> k == n)
  {
  }

  lemma SlotShift(rd: nat, k: nat)
    requires rd < EVQUEUE_SZ && k + 1 < EVQUEUE_SZ
    ensures Slot(Next(rd), k) == Slot(rd, k + 1)
  {
    hide Next;
    NextIs(rd);
  }

  lemma RingPop(s: seq<Event>, rd: nat, wr: nat)
    requires |s| == EVQUEUE_SZ && rd < EVQUEUE_SZ && wr < EVQUEUE_SZ
    ensures rd == wr <==> Ring(s, rd, wr) == []
    ensures rd != wr ==> Ring(s, rd, wr)[0] == s[rd] && Ring(s, Next(rd), wr) == Ring(s, rd, wr)[1..]
  {
    hide Next;
    if rd != wr {
      var a, b := Ring(s, Next(rd), wr), Ring(s, rd, wr)[1..];
      hide Ring;
      assert |a| == |b|;
      forall k | 0 <= k < |a| ensures a[k] == b[k] {}
    }
  }

  /** How the parser sees a line: the spaceball decodes its data, the magellan does not. */
  function Seen(mag: bool, f: seq<Byte>): Packet {
    if mag && f != [] then Packet(f[0], f[1..]) else Unframe(f)
  }

  function SeenAll(mag: bool, fs: seq<seq<Byte>>): seq<Packet> {
    if fs == [] then [] else SeenAll(mag, fs[..|fs| - 1]) + [Seen(mag, fs[|fs| - 1])]
  }

  lemma {:induction false} SeenConcat(mag: bool, a: seq<seq<Byte>>, b: seq<seq<Byte>>)
    ensures SeenAll(mag, a + b) == SeenAll(mag, a) + SeenAll(mag, b)
  {
    hide Seen;
    if b == [] {
      assert a + b == a;
    } else {
      assert (a + b)[..|a + b| - 1] == a + b[..|b| - 1];
      SeenConcat(mag, a, b[..|b| - 1]);
    }
  }

  lemma {:induction false} SeenSball(fs: seq<seq<Byte>>)
    ensures SeenAll(false, fs) == UnframeAll(fs)
  {
    hide Unframe;
    if fs != [] {
      SeenSball(fs[..|fs| - 1]);
      assert fs == fs[..|fs| - 1] + [fs[|fs| - 1]];
      UnframeSnoc(fs[..|fs| - 1], fs[|fs| - 1]);
    }
  }

  lemma {:induction false} ParseAllConcat(mag: bool, d: Dev, a: seq<Packet>, b: seq<Packet>)
    requires d.Valid()
    ensures var x := ParseAll(mag, d, a);
            var y := ParseAll(mag, x.dev, b);
            ParseAll(mag, d, a + b) == Outcome(y.dev, x.events + y.events)
  {
    hide Parse;
    if b == [] {
      assert a + b == a;
    } else {
      assert (a + b)[..|a + b| - 1] == a + b[..|b| - 1];
      ParseAllConcat(mag, d, a, b[..|b| - 1]);
    }
  }

  lemma ParseAllSnoc(mag: bool, d: Dev, ps: seq<Packet>, p: Packet)
    requires d.Valid()
    ensures var x := ParseAll(mag, d, ps);
            var y := Parse(mag, x.dev, p);
            ParseAll(mag, d, ps + [p]) == Outcome(y.dev, x.events + y.events)
  {
    hide Parse;
    assert (ps + [p])[..|ps|] == ps;
  }

  lemma SeenSnoc(mag: bool, fs: seq<seq<Byte>>, f: seq<Byte>)
    ensures SeenAll(mag, fs + [f]) == SeenAll(mag, fs) + [Seen(mag, f)]
  {
    hide Seen;
    assert (fs + [f])[..|fs|] == fs;
  }

  /** Everything a packet can change. */
  datatype Snap = Snap(dev: Dev, queue: seq<Event>, log: seq<Event>, parsed: seq<Packet>)

  /** The state after the lines fs have been handed to the parser. */
  function After(mag: bool, s: Snap, fs: seq<seq<Byte>>): (r: Snap)
    requires s.dev.Valid()
    ensures r.dev.Valid()
  {
    var ps := SeenAll(mag, fs);
    var o := ParseAll(mag, s.dev, ps);
    Snap(o.dev, PushAll(s.queue, o.events), s.log + o.events, s.parsed + ps)
  }

  lemma AfterNone(mag: bool, s: Snap)
    requires s.dev.Valid()
    ensures After(mag, s, []) == s
  {
    assert s.log + [] == s.log && s.parsed + [] == s.parsed;
  }

  lemma AfterOne(mag: bool, s: Snap, f: seq<Byte>)
    requires s.dev.Valid()
    ensures var p := Seen(mag, f);
            var o := Parse(mag, s.dev, p);
            After(mag, s, [f]) == Snap(o.dev, PushAll(s.queue, o.events), s.log + o.events, s.parsed + [p])
  {
    hide Parse, Seen, PushAll;
    SeenSnoc(mag, [], f);
    ParseAllSnoc(mag, s.dev, [], Seen(mag, f));
    assert [] + [f] == [f] && [] + [Seen(mag, f)] == [Seen(mag, f)];
    assert [] + Parse(mag, s.dev, Seen(mag, f)).events == Parse(mag, s.dev, Seen(mag, f)).events;
  }

  lemma AfterConcat(mag: bool, s: Snap, a: seq<seq<Byte>>, b: seq<seq<Byte>>)
    requires s.dev.Valid()
    ensures After(mag, s, a + b) == After(mag, After(mag, s, a), b)
  {
    hide Parse, Seen, PushAll, SeenAll, ParseAll;
    SeenConcat(mag, a, b);
    var pa, pb := SeenAll(mag, a), SeenAll(mag, b);
    ParseAllConcat(mag, s.dev, pa, pb);
    var x := ParseAll(mag, s.dev, pa);
    var y := ParseAll(mag, x.dev, pb);
    PushAllConcat(s.queue, x.events, y.events);
    assert s.log + (x.events + y.events) == s.log + x.events + y.events;
    assert s.parsed + (pa + pb) == s.parsed + pa + pb;
  }

  /**
   From the wire to a listener: however the bytes of a packet list are split (with
   short tails), the parser sees the list, and a listener who replays the events it
   caused ends with the device's axes and buttons.
   */
  lemma WireToListener(s: Snap, ps: seq<Packet>, chunks: seq<seq<Byte>>)
    requires s.dev.Valid()
    requires forall p :: p in ps ==> p.id != CR
    requires Flatten(chunks) == EncodeAll(ps) && TailsStayShort([], chunks)
    ensures var r := After(false, s, Delivered([], chunks));
            && r.parsed == s.parsed + ps
            && r.dev == ParseAll(false, s.dev, ps).dev
            && s.log <= r.log
            && Replay(Shadow(s.dev.mot, s.dev.keys), r.log[|s.log|..]) == Shadow(r.dev.mot, r.dev.keys)
  {
    hide Delivered, EncodeAll, Flatten, TailsStayShort, Parse, PushAll, Replay, UnframeAll;
    FramingRoundTrip(ps, chunks);
    SeenSball(Delivered([], chunks));
    ReplayRun(false, s.dev, ps);
  }

  function Least(a: nat, b: nat): nat { if a < b then a else b }

  /** The bytes each read of one wake-up delivers: what was asked for, what is there, what fits. */
  function ReadsOf(buf: seq<Byte>, input: seq<Byte>, sizes: seq<nat>): seq<seq<Byte>>
    requires |buf| <= READ_MAX
    decreases |sizes|
  {
    if sizes == [] then []
    else
      var n := Least(Least(sizes[0], |input|), Room(buf));
      if n == 0 then []
      else [input[..n]] + ReadsOf(Kept(buf + input[..n]), input[n..], sizes[1..])
  }

  // what one turn of the decoder reads and writes
  function TurnLength(s: seq<Byte>): nat
    requires s != []
  {
    if s[0] != HAT || |s| == 1 then 1 else 2
  }

  function TurnOutput(s: seq<Byte>): (d: seq<Byte>)
    requires s != []
    ensures |d| <= 1
  {
    if s[0] != HAT then [s[0]] else if |s| == 1 then [] else Unescape(s[1])
  }

  lemma TurnIs(s: seq<Byte>)
    requires s != []
    ensures 0 < TurnLength(s) <= |s| && Decode(s) == TurnOutput(s) + Decode(s[TurnLength(s)..])
  {
    if s[0] == HAT && |s| == 1 { assert s[1..] == []; }
  }

  lemma PushAllSnoc(q: seq<Event>, es: seq<Event>, e: Event)
    ensures PushAll(q, es + [e]) == Push(PushAll(q, es), e)
  {
    hide Push;
    assert (es + [e])[..|es|] == es;
  }

  class Sball {
    const mag: bool              // which parser was chosen when the device was opened
    const buf: array<Byte>
    const evqueue: array<Event>
    var len: nat
    var mot: seq<int>
    var keystate: Word
    var keymask: Word
    var sb4000: bool
    var numButtons: int
    var rd: nat
    var wr: nat
    ghost var log: seq<Event>        // every event ever enqueued
    ghost var parsed: seq<Packet>    // every packet handed to the parser, decoded

    ghost predicate Valid()
      reads this
    {
      && buf.Length == BUF_SZ && evqueue.Length == EVQUEUE_SZ
      && len <= READ_MAX
      && |mot| == 6
      && rd < EVQUEUE_SZ && wr < EVQUEUE_SZ
    }

    ghost function State(): (d: Dev)
      requires Valid()
      reads this
      ensures d.Valid()
    {
      Dev(mot, keystate, keymask, sb4000, numButtons)
    }

    // the queued events, oldest first; the ring is empty when the indices meet
    ghost function Queued(): seq<Event>
      requires Valid()
      reads this, evqueue
    {
      Ring(evqueue[..], rd, wr)
    }

    ghost function Now(): (s: Snap)
      requires Valid()
      reads this, evqueue
      ensures s.dev.Valid()
    {
      Snap(State(), Queued(), log, parsed)
    }

    ghost function Input(): seq<Byte>
      requires Valid()
      reads this, buf
    {
      buf[..len]
    }

    constructor (mag: bool, buttons: int)
      ensures Valid() && fresh(buf) && fresh(evqueue) && this.mag == mag
      ensures State() == Dev(seq(6, _ => 0), Lowest(0), Lowest(buttons), false, buttons)
      ensures Input() == [] && Queued() == [] && log == [] && parsed == []
    {
      this.mag := mag;
      buf := new Byte[BUF_SZ](_ => 0);
      evqueue := new Event[EVQUEUE_SZ](_ => Flush);
      len, rd, wr := 0, 0, 0;
      mot, keystate := seq(6, _ => 0), Lowest(0);
      keymask, sb4000, numButtons := Lowest(buttons), false, buttons;
      log, parsed := [], [];
    }

    // ---- the ring ------------------------------------------------------------------

    method Enqueue(e: Event)
      requires Valid()
      modifies this`rd, this`wr, this`log, evqueue
      ensures Valid() && Queued() == Push(old(Queued()), e) && log == old(log) + [e]
    {
      hide Ring, Push, Next;
      RingPush(evqueue[..], rd, wr, e);
      var at := wr;
      wr := Next(wr);
      if wr == rd {
        // overflow, drop the oldest event
        rd := Next(rd);
      }
      evqueue[at] := e;
      log := log + [e];
      assert evqueue[..] == old(evqueue[..])[at := e];
    }

    /** read_dev_serial's answer: the oldest event, or none. */
    method Dequeue() returns (ok: bool, e: Event)
      requires Valid()
      modifies this`rd
      ensures Valid()
      ensures ok == (old(Queued()) != [])
      ensures if ok then e == old(Queued())[0] && Queued() == old(Queued())[1..] else Queued() == []
    {
      hide Ring, Next;
      RingPop(evqueue[..], rd, wr);
      e := Flush;
      ok := rd != wr;
      if ok {
        e := evqueue[rd];
        rd := Next(rd);
      }
    }

    method EnqueueMotion(axis: int, val: int)
      requires Valid()
      modifies this`rd, this`wr, this`log, evqueue
      ensures var e := if axis >= 0 then Motion(axis, val) else Flush;
              Valid() && Queued() == Push(old(Queued()), e) && log == old(log) + [e]
    {
      if axis >= 0 { Enqueue(Motion(axis, val)); } else { Enqueue(Flush); }
    }

    method GenButtonEvents(prev: Word)
      requires Valid()
      modifies this`rd, this`wr, this`log, evqueue
      ensures var es := ButtonEvents(prev, keystate, 0);
              Valid() && Queued() == PushAll(old(Queued()), es) && log == old(log) + es
    {
      hide Push, PushAll, Ring, ButtonEvents;
      ghost var q, es := Queued(), ButtonEvents(prev, keystate, 0);
      ghost var done: seq<Event> := [];
      PushNone(q);
      for i := 0 to 16
        invariant Valid() && es == done + ButtonEvents(prev, keystate, i)
        invariant Queued() == PushAll(q, done) && log == old(log) + done
      {
        ButtonStep(prev, keystate, i);
        if keystate[i] != prev[i] {
          Enqueue(Button(i, if keystate[i] then 1 else 0));
          ghost var e := Button(i, if keystate[i] then 1 else 0);
          PushAllSnoc(q, done, e);
          assert done + ButtonEvents(prev, keystate, i) == done + [e] + ButtonEvents(prev, keystate, i + 1);
          done := done + [e];
        }
      }
      ButtonEnd(prev, keystate);
      assert done + [] == done;
    }

    lemma ButtonStep(was: Word, now: Word, i: nat)
      requires i < 16
      ensures ButtonEvents(was, now, i) ==
              if now[i] != was[i] then [Button(i, if now[i] then 1 else 0)] + ButtonEvents(was, now, i + 1)
              else ButtonEvents(was, now, i + 1)
    {
    }

    lemma ButtonEnd(was: Word, now: Word)
      ensures ButtonEvents(was, now, 16) == []
    {
    }

    // ---- packets ----------------------------------------------------------------------

    // store new axis values one by one, enqueueing the changes
    method StoreAxes(now: seq<int>)
      requires Valid() && |now| == 6
      modifies this`mot, this`rd, this`wr, this`log, evqueue
      ensures Valid() && mot == now
      ensures var es := MotionEvents(old(mot), now);
              Queued() == PushAll(old(Queued()), es) && log == old(log) + es
    {
      hide Push, PushAll, Ring, MixAxes, AxisEvents;
      ghost var was, q := mot, Queued();
      ghost var all := AxisEvents(was, now, 0);
      ghost var done: seq<Event> := [];
      var pending := 0;
      PushNone(q);
      MixEnds(was, now);
      for i := 0 to 6
        invariant Valid() && mot == MixAxes(was, now, i) && pending == |done|
        invariant all == done + AxisEvents(was, now, i)
        invariant Queued() == PushAll(q, done) && log == old(log) + done
      {
        MixStep(was, now, i);
        var prev := mot[i];
        mot := mot[i := now[i]];
        if mot[i] != prev {
          EnqueueMotion(i, mot[i]);
          pending := pending + 1;
          ghost var e := Motion(i, now[i]);
          PushAllSnoc(q, done, e);
          assert done + AxisEvents(was, now, i) == done + [e] + AxisEvents(was, now, i + 1);
          done := done + [e];
        }
      }
      assert done + [] == done == all;
      if pending > 0 {
        EnqueueMotion(-1, 0);
        PushAllSnoc(q, done, Flush);
      }
    }

    lemma MixStep(was: seq<int>, now: seq<int>, i: nat)
      requires |was| == |now| == 6 && i < 6
      ensures |MixAxes(was, now, i)| == 6 && MixAxes(was, now, i)[i] == was[i]
      ensures MixAxes(was, now, i + 1) == MixAxes(was, now, i)[i := now[i]]
      ensures AxisEvents(was, now, i) ==
                (if now[i] != was[i] then [Motion(i, now[i])] else []) + AxisEvents(was, now, i + 1)
    {
    }

    lemma MixEnds(was: seq<int>, now: seq<int>)
      requires |was| == |now| == 6
      ensures MixAxes(was, now, 0) == was && MixAxes(was, now, 6) == now && AxisEvents(was, now, 6) == []
    {
    }

    lemma PushNone(q: seq<Event>)
      ensures PushAll(q, []) == q
    {
    }

    method StoreKeys(now: Word)
      requires Valid()
      modifies this`keystate, this`rd, this`wr, this`log, evqueue
      ensures Valid() && keystate == now
      ensures var es := ButtonEvents(old(keystate), now, 0);
              Queued() == PushAll(old(Queued()), es) && log == old(log) + es
    {
      var prev := keystate;
      keystate := now;
      if keystate != prev {
        GenButtonEvents(prev);
      } else {
        NoChange(now, 0);
      }
    }

    lemma {:induction false} NoChange(w: Word, i: nat)
      requires i <= 16
      ensures ButtonEvents(w, w, i) == []
      decreases 16 - i
    {
      if i < 16 { NoChange(w, i + 1); }
    }

    /** The decoder works in place: the write position never passes the read position. */
    method DecodeInPlace(at: nat, n: nat) returns (m: nat)
      requires at + n < buf.Length
      modifies buf
      ensures m <= n && buf[at..at + m] == Decode(old(buf[at..at + n]))
      ensures buf[..at] == old(buf[..at]) && buf[at + n..] == old(buf[at + n..])
    {
      hide Decode, TurnLength, TurnOutput;
      ghost var src := buf[at..at + n];
      var r, w := 0, 0;
      assert [] + Decode(src[0..]) == Decode(src) by { assert src[0..] == src; }
      while r < n
        invariant 0 <= w <= r <= n
        invariant buf[at + r..] == old(buf[at + r..]) && buf[..at] == old(buf[..at])
        invariant buf[at..at + w] + Decode(src[r..]) == Decode(src)
      {
        assert buf[at + r..at + n] == src[r..];
        TurnIs(src[r..]);
        ghost var done, rest, r0 := buf[at..at + w], src[r..], r;
        r, w := DecodeOne(at, r, w, n);
        assert rest[r - r0..] == src[r..];
        assert done + Decode(rest) == done + TurnOutput(rest) + Decode(src[r..]);
      }
      m := w;
      assert src[n..] == [] && Decode([]) == [] by { DecodeNone(); }
    }

    lemma DecodeNone()
      ensures Decode([]) == []
    {
    }

    // one turn of the decoder: at most two bytes read, at most one written behind them
    method DecodeOne(at: nat, r: nat, w: nat, n: nat) returns (r': nat, w': nat)
      requires w <= r < n && at + n < buf.Length
      modifies buf
      ensures w <= w' <= r' <= n && r' == r + TurnLength(old(buf[at + r..at + n]))
      ensures buf[..at] == old(buf[..at]) && buf[at + r'..] == old(buf[at + r'..])
      ensures buf[at..at + w'] == old(buf[at..at + w]) + TurnOutput(old(buf[at + r..at + n]))
    {
      ghost var src := buf[at + r..at + n];
      var c := buf[at + r];
      assert c == src[0];
      if c == HAT {
        // past the last byte the decoder finds the terminating NUL
        var x: Byte := if r + 1 < n then buf[at + r + 1] else 0;
        assert r + 1 < n ==> x == src[1];
        r' := if r + 2 <= n then r + 2 else n;
        w' := w;
        if Unescape(x) != [] { w' := Emit(at, w, Unescape(x)[0]); }
      } else {
        r' := r + 1;
        w' := Emit(at, w, c);
      }
    }

    // *wr++ = c
    method Emit(at: nat, w: nat, c: Byte) returns (w': nat)
      requires at + w < buf.Length
      modifies buf
      ensures w' == w + 1 && buf[at..at + w'] == old(buf[at..at + w]) + [c]
      ensures buf[..at] == old(buf[..at]) && buf[at + w'..] == old(buf[at + w'..])
    {
      buf[at + w] := c;
      w' := w + 1;
    }

    /** sball_parsepkt and mag_parsepkt on the n bytes at `at`. */
    method ParsePacket(id: Byte, at: nat, n: nat)
      requires Valid() && at + n < buf.Length
      modifies this`mot, this`keystate, this`keymask, this`sb4000, this`numButtons
      modifies this`rd, this`wr, this`log, this`parsed, buf, evqueue
      ensures Valid() && buf[at + n..] == old(buf[at + n..])
      ensures var data := old(buf[at..at + n]);
              var p := Packet(id, if mag then data else Decode(data));
              var o := Parse(mag, old(State()), p);
              && State() == o.dev && parsed == old(parsed) + [p]
              && log == old(log) + o.events && Queued() == PushAll(old(Queued()), o.events)
    {
      hide Ring, PushAll, MotionEvents, ButtonEvents, Decode, SballAxes, MagAxes, KeysK, KeysDot, KeysMag;
      PushNone(Queued());
      ghost var data := buf[at..at + n];
      var m := n;
      if !mag { m := DecodeInPlace(at, n); }
      var d := buf[at..at + m];
      parsed := parsed + [Packet(id, d)];
      assert log + [] == log;
      if mag {
        if id == 0x64 && m == 24 {
          StoreAxes(MagAxes(d));
        } else if id == 0x6b && m >= 3 {
          StoreKeys(KeysMag(d));
        }
      } else if id == 0x44 && m == 14 {
        StoreAxes(SballAxes(d));
      } else if id == 0x4b && m == 2 {
        if !sb4000 { StoreKeys(And(KeysK(d[0], d[1]), keymask)); }
      } else if id == 0x2e && m == 2 {
        if !sb4000 {
          sb4000 := true;
          numButtons := 12;
          keymask := Lowest(12);
        }
        StoreKeys(KeysDot(d[0], d[1]));
      }
    }

    // the line buf[start..end]; an empty one shows the NUL that replaced its CR
    method ParseLine(start: nat, end: nat)
      requires Valid() && start <= end < buf.Length
      modifies this`mot, this`keystate, this`keymask, this`sb4000, this`numButtons
      modifies this`rd, this`wr, this`log, this`parsed, buf, evqueue
      ensures Valid() && buf[end + 1..] == old(buf[end + 1..])
      ensures Now() == After(mag, old(Now()), [old(buf[start..end])])
    {
      hide Ring, PushAll, Decode, Parse, After;
      ghost var f, was, all := buf[start..end], Now(), buf[end + 1..];
      AfterOne(mag, was, f);
      buf[end] := 0;
      assert buf[start..end] == f && buf[end + 1..] == all;
      if start == end {
        assert Decode([]) == [] by { DecodeNone(); }
        ParsePacket(buf[start], start, 0);
      } else {
        assert buf[start + 1..end] == f[1..] && buf[start] == f[0];
        ParsePacket(buf[start], start + 1, end - start - 1);
        assert buf[end..][1..] == buf[end + 1..];
      }
    }

    // memmove(buf, start, n)
    method CopyDown(start: nat, n: nat)
      requires start + n <= buf.Length
      modifies buf
      ensures buf[..n] == old(buf[start..start + n]) && buf[n..] == old(buf[n..])
    {
      ghost var was := buf[..];
      for k := 0 to n
        invariant forall j :: 0 <= j < k ==> buf[j] == was[start + j]
        invariant forall j :: k <= j < buf.Length ==> buf[j] == was[j]
      {
        buf[k] := buf[start + k];
      }
    }

    // `now` is `was` with its first n bytes replaced by those from start on
    lemma KeptIs(s: seq<Byte>, was: seq<Byte>, now: seq<Byte>, n: nat)
      requires |was| == |now| == BUF_SZ && |s| <= READ_MAX
      requires n == Least(Consumed(s), BUF_SZ - Consumed(s)) && Consumed(s) > 0
      requires was[Consumed(s)..|s|] == s[Consumed(s)..]
      requires now[..n] == was[Consumed(s)..Consumed(s) + n] && now[n..] == was[n..]
      ensures now[..|s| - Consumed(s)] == Kept(s)
    {
      hide Consumed, Kept;
      forall k | 0 <= k < |s| - Consumed(s) ensures |Kept(s)| == |s| - Consumed(s) && now[k] == Kept(s)[k] {
        KeptByte(s, was, now, n, k);
      }
    }

    lemma KeptByte(s: seq<Byte>, was: seq<Byte>, now: seq<Byte>, n: nat, k: nat)
      requires |was| == |now| == BUF_SZ && |s| <= READ_MAX
      requires n == Least(Consumed(s), BUF_SZ - Consumed(s)) && Consumed(s) > 0
      requires was[Consumed(s)..|s|] == s[Consumed(s)..]
      requires now[..n] == was[Consumed(s)..Consumed(s) + n] && now[n..] == was[n..]
      requires k < |s| - Consumed(s)
      ensures |Kept(s)| == |s| - Consumed(s) && now[k] == Kept(s)[k]
    {
      hide Consumed, Kept;
      var c := Consumed(s);
      KeptAt(s, k);
      if k < c {
        SliceAt(now, 0, n, k);
        SliceAt(was, c, c + n, k);
        SliceAt(was, c, |s|, k);
      } else {
        SliceAt(now, n, |now|, k - n);
        SliceAt(was, n, |was|, k - n);
        SliceAt(was, c, |s|, k - c);
      }
    }

    lemma SliceAt(s: seq<Byte>, a: nat, b: nat, k: nat)
      requires a <= b <= |s| && k < b - a
      ensures s[a..b][k] == s[a + k]
    {
    }

    lemma KeptAt(s: seq<Byte>, k: nat)
      requires Consumed(s) > 0 && k < |s| - Consumed(s)
      ensures |Kept(s)| == |s| - Consumed(s)
      ensures Kept(s)[k] == if k < Consumed(s) then s[Consumed(s)..][k] else s[Consumed(s)..][k - Consumed(s)]
    {
      hide Consumed;
    }

    // memmove(buf, start, start - buf); len -= start - buf
    method MoveTail(start: nat, ghost s: seq<Byte>)
      requires Valid() && len == |s| && start == Consumed(s) && buf[start..len] == s[start..]
      modifies this`len, buf
      ensures Valid() && Input() == Kept(s) && Now() == old(Now())
    {
      hide Ring, Consumed, Kept;
      var sz := start;
      if sz > 0 {
        ghost var was := buf[..];
        // what lies beyond the buffer is never part of the tail
        var n := Least(sz, BUF_SZ - start);
        CopyDown(start, n);
        assert was[start..|s|] == s[start..];
        KeptIs(s, was, buf[..], n);
        len := len - sz;
      } else {
        KeptNone(s);
      }
    }

    lemma KeptNone(s: seq<Byte>)
      requires Consumed(s) == 0
      ensures Kept(s) == s
    {
    }

    lemma ScanSlices(all: seq<Byte>, s: seq<Byte>, start: nat, bptr: nat)
      requires start <= bptr < |s| <= |all| && all[start..|s|] == s[start..]
      ensures all[bptr] == s[bptr] && all[start..bptr] == s[start..bptr]
      ensures all[bptr + 1..][..|s| - bptr - 1] == s[bptr + 1..]
    {
      assert all[start..|s|][bptr - start] == s[start..][bptr - start];
      assert all[start..|s|][..bptr - start] == all[start..bptr] && s[start..][..bptr - start] == s[start..bptr];
      assert all[start..|s|][bptr + 1 - start..] == all[bptr + 1..|s|];
      assert s[start..][bptr + 1 - start..] == s[bptr + 1..];
    }

    // look at one byte: a CR ends a line
    method ScanByte(start: nat, bptr: nat, ghost s: seq<Byte>, ghost was: Snap) returns (start': nat, bptr': nat)
      requires Valid() && start <= bptr < len == |s| && was.dev.Valid()
      requires start == Consumed(s[..bptr]) && buf[start..len] == s[start..]
      requires Now() == After(mag, was, Frames(s[..bptr]))
      modifies this`mot, this`keystate, this`keymask, this`sb4000, this`numButtons
      modifies this`rd, this`wr, this`log, this`parsed, buf, evqueue
      ensures Valid() && start' <= bptr' == bptr + 1
      ensures start' == Consumed(s[..bptr']) && buf[start'..len] == s[start'..]
      ensures Now() == After(mag, was, Frames(s[..bptr']))
    {
      hide Kept, Frames, Tail, Consumed, After, Ring;
      ghost var before, all := s[..bptr], buf[..];
      assert all[start..len] == buf[start..len];
      ScanSlices(all, s, start, bptr);
      assert s[..bptr + 1] == before + [s[bptr]];
      Snoc(before, s[bptr]);
      SnocConsumed(before, s[bptr]);
      start' := start;
      bptr' := bptr + 1;
      if buf[bptr] == CR {
        TailSlice(s, start, bptr);
        assert buf[start..bptr] == all[start..bptr] && buf[bptr + 1..] == all[bptr + 1..];
        ParseLine(start, bptr);
        AfterConcat(mag, was, Frames(before), [Tail(before)]);
        start' := bptr';
        assert buf[start'..len] == buf[start'..][..len - start'];
      }
    }

    /** proc_input: parse every complete line, then move the rest to the front. */
    method ProcInput()
      requires Valid()
      modifies this, buf, evqueue
      ensures Valid() && Input() == Kept(old(Input()))
      ensures Now() == After(mag, old(Now()), Frames(old(Input())))
    {
      hide Kept, Frames, Consumed, After, Ring;
      ghost var s, was := Input(), Now();
      var start := 0;
      var bptr := 0;
      FirstByte(s);
      AfterNone(mag, was);
      while bptr < len
        invariant Valid() && 0 <= start <= bptr <= len == |s|
        invariant start == Consumed(s[..bptr]) && buf[start..len] == s[start..]
        invariant Now() == After(mag, was, Frames(s[..bptr]))
      {
        start, bptr := ScanByte(start, bptr, s, was);
      }
      assert s[..bptr] == s;
      MoveTail(start, s);
    }

    lemma FirstByte(s: seq<Byte>)
      ensures s[..0] == [] && Frames(s[..0]) == [] && Consumed(s[..0]) == 0
    {
    }

    lemma SnocConsumed(s: seq<Byte>, x: Byte)
      ensures Consumed(s + [x]) == if x == CR then |s| + 1 else Consumed(s)
    {
      assert (s + [x])[..|s|] == s;
    }

    lemma TailSlice(s: seq<Byte>, start: nat, end: nat)
      requires start <= end <= |s| && start == Consumed(s[..end])
      ensures Tail(s[..end]) == s[start..end]
    {
    }

    // read the bytes into the buffer
    method CopyIn(bytes: seq<Byte>)
      requires Valid() && |bytes| <= Room(Input())
      modifies this`len, buf
      ensures Valid() && Input() == old(Input()) + bytes && Now() == old(Now())
    {
      hide Ring;
      ghost var was := Input();
      for k := 0 to |bytes|
        invariant len == |was| && buf[..len] == was && buf[len..len + k] == bytes[..k]
      {
        buf[len + k] := bytes[k];
      }
      len := len + |bytes|;
      assert Input() == was + bytes;
    }

    // one read and its parse
    method Feed(bytes: seq<Byte>, ghost b0: seq<Byte>, ghost done: seq<seq<Byte>>, ghost was: Snap)
      requires Valid() && |bytes| <= Room(Input()) && was.dev.Valid()
      requires Input() == Left(b0, done) && Now() == After(mag, was, Delivered(b0, done))
      modifies this, buf, evqueue
      ensures Valid() && Input() == Left(b0, done + [bytes]) == Kept(old(Input()) + bytes)
      ensures Now() == After(mag, was, Delivered(b0, done + [bytes]))
    {
      hide Kept, Frames, Delivered, Left, After, Ring;
      FeedSnoc(b0, done, bytes);
      AfterConcat(mag, was, Delivered(b0, done), Frames(Input() + bytes));
      CopyIn(bytes);
      ProcInput();
    }

    lemma ReadsStep(b: seq<Byte>, input: seq<Byte>, sizes: seq<nat>)
      requires |b| <= READ_MAX && sizes != []
      ensures var n := Least(Least(sizes[0], |input|), Room(b));
              ReadsOf(b, input, sizes) ==
              if n == 0 then [] else [input[..n]] + ReadsOf(Kept(b + input[..n]), input[n..], sizes[1..])
    {
    }

    lemma FlattenSnoc(done: seq<seq<Byte>>, rest: seq<Byte>, n: nat)
      requires n <= |rest|
      ensures Flatten(done + [rest[..n]]) + rest[n..] == Flatten(done) + rest
    {
      hide Flatten, Kept, Frames;
      FeedSnoc([], done, rest[..n]);
      assert rest == rest[..n] + rest[n..];
    }

    // read until nothing more arrives or fits, parsing after every read
    method ReadAll(input: seq<Byte>, sizes: seq<nat>) returns (rest: seq<Byte>)
      requires Valid()
      modifies this, buf, evqueue
      ensures Valid()
      ensures var chunks := ReadsOf(old(Input()), input, sizes);
              && Flatten(chunks) + rest == input
              && Input() == Left(old(Input()), chunks)
              && Now() == After(mag, old(Now()), Delivered(old(Input()), chunks))
    {
      hide Kept, Delivered, Left, Flatten, After, Ring, ReadsOf;
      ghost var b0, was := Input(), Now();
      ghost var done: seq<seq<Byte>> := [];
      rest := input;
      AfterNone(mag, was);
      FeedNone(b0);
      var i := 0;
      var more := true;
      assert sizes[0..] == sizes;
      while i < |sizes| && more
        invariant 0 <= i <= |sizes| && Valid()
        invariant ReadsOf(b0, input, sizes) == done + if more then ReadsOf(Input(), rest, sizes[i..]) else []
        invariant Flatten(done) + rest == input && Input() == Left(b0, done)
        invariant Now() == After(mag, was, Delivered(b0, done))
        decreases |sizes| - i, more
      {
        ghost var before := rest;
        more, i, rest := ReadOnce(sizes, i, rest, input, b0, done, was);
        if more { done := done + [before[..|before| - |rest|]]; }
      }
      assert sizes[|sizes|..] == [];
      ReadsEnd(Input(), rest);
      assert done + [] == done;
    }

    // one read: false when it delivers nothing
    method ReadOnce(sizes: seq<nat>, i: nat, rest: seq<Byte>, ghost input: seq<Byte>,
                    ghost b0: seq<Byte>, ghost done: seq<seq<Byte>>, ghost was: Snap)
      returns (more: bool, i': nat, rest': seq<Byte>)
      requires Valid() && i < |sizes| && was.dev.Valid() && |b0| <= READ_MAX
      requires ReadsOf(b0, input, sizes) == done + ReadsOf(Input(), rest, sizes[i..])
      requires Flatten(done) + rest == input && Input() == Left(b0, done)
      requires Now() == After(mag, was, Delivered(b0, done))
      modifies this, buf, evqueue
      ensures Valid() && |rest'| <= |rest| && rest == rest[..|rest| - |rest'|] + rest'
      ensures if more then i' == i + 1 else i' == i && rest' == rest
      ensures var now := if more then done + [rest[..|rest| - |rest'|]] else done;
              && ReadsOf(b0, input, sizes) == now + (if more then ReadsOf(Input(), rest', sizes[i'..]) else [])
              && Flatten(now) + rest' == input && Input() == Left(b0, now)
              && Now() == After(mag, was, Delivered(b0, now))
    {
      hide Kept, Delivered, Left, Flatten, After, Ring, ReadsOf;
      var n := Least(Least(sizes[i], |rest|), READ_MAX - len);
      ReadsStep(Input(), rest, sizes[i..]);
      assert sizes[i..][1..] == sizes[i + 1..];
      more := n > 0;
      if more {
        Feed(rest[..n], b0, done, was);
        FlattenSnoc(done, rest, n);
        i', rest' := i + 1, rest[n..];
      } else {
        i', rest' := i, rest;
      }
    }

    lemma ReadsEnd(b: seq<Byte>, input: seq<Byte>)
      requires |b| <= READ_MAX
      ensures ReadsOf(b, input, []) == []
    {
    }

    /**
     One wake-up: read while bytes arrive, parse after every read, and hand out the
     oldest event. The input buffer never fills, so it is never discarded.
     */
    method ReadDevSerial(input: seq<Byte>, sizes: seq<nat>) returns (rest: seq<Byte>, ok: bool, e: Event)
      requires Valid()
      modifies this, buf, evqueue
      ensures Valid() && len < BUF_SZ
      ensures var chunks := ReadsOf(old(Input()), input, sizes);
              var s := After(mag, old(Now()), Delivered(old(Input()), chunks));
              && Flatten(chunks) + rest == input && Fits(old(Input()), chunks)
              && Input() == Left(old(Input()), chunks)
              && ok == (s.queue != []) && (ok ==> e == s.queue[0])
              && Now() == s.(queue := if ok then s.queue[1..] else [])
    {
      hide Kept, Delivered, Left, Flatten, After, Ring, ReadsOf, Fits;
      ReadsFit(Input(), input, sizes);
      rest := ReadAll(input, sizes);
      // the code discards a buffer of INP_BUF_SZ bytes here
      assert len < BUF_SZ;
      ok, e := Dequeue();
    }

    lemma FeedNone(b: seq<Byte>)
      ensures Delivered(b, []) == [] && Left(b, []) == b && Flatten([]) == []
    {
    }

    lemma {:induction false} ReadsFit(b: seq<Byte>, input: seq<Byte>, sizes: seq<nat>)
      requires |b| <= READ_MAX
      ensures Fits(b, ReadsOf(b, input, sizes))
      decreases |sizes|
    {
      if sizes != [] {
        var n := Least(Least(sizes[0], |input|), Room(b));
        if n > 0 { ReadsFit(Kept(b + input[..n]), input[n..], sizes[1..]); }
      }
    }
  }
}
