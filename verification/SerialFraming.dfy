/**
 The byte stream of a serial device: packets end in a carriage return, and the
 spaceball escapes the bytes that cannot travel as they are.
 */
module SerialFraming {

  type Byte = bv8

  const CR: Byte := 13
  const HAT: Byte := 0x5e   // '^'
  const BUF_SZ := 256
  const READ_MAX := 255     // read_dev_serial never fills the last byte

  // ---- packets in a stretch of bytes ----------------------------------------------

  /** The bytes up to and including the last CR. */
  function Consumed(s: seq<Byte>): (n: nat)
    ensures n <= |s| && (n > 0 ==> s[n - 1] == CR) && forall i :: n <= i < |s| ==> s[i] != CR
  {
    if s == [] then 0
    else if s[|s| - 1] == CR then |s|
    else Consumed(s[..|s| - 1])
  }

  function Tail(s: seq<Byte>): seq<Byte> { s[Consumed(s)..] }

  /** The packets of s, without their CR; bytes after the last CR belong to none. */
  function Frames(s: seq<Byte>): seq<seq<Byte>> {
    if s == [] then []
    else if s[|s| - 1] == CR then Frames(s[..|s| - 1]) + [Tail(s[..|s| - 1])]
    else Frames(s[..|s| - 1])
  }

  lemma {:induction false} ConsumedIs(s: seq<Byte>, n: nat)
    requires n <= |s| && (n > 0 ==> s[n - 1] == CR) && forall i :: n <= i < |s| ==> s[i] != CR
    ensures Consumed(s) == n
  {
    if s != [] && s[|s| - 1] != CR { ConsumedIs(s[..|s| - 1], n); }
  }

  lemma Snoc(s: seq<Byte>, x: Byte)
    ensures Tail(s + [x]) == if x == CR then [] else Tail(s) + [x]
    ensures Frames(s + [x]) == if x == CR then Frames(s) + [Tail(s)] else Frames(s)
  {
    assert (s + [x])[..|s|] == s;
    if x != CR { assert Consumed(s + [x]) == Consumed(s); }
  }

  lemma {:induction false} TailOfTail(s: seq<Byte>)
    ensures Frames(Tail(s)) == [] && Tail(Tail(s)) == Tail(s)
  {
    NoFrames(Tail(s));
    ConsumedIs(Tail(s), 0);
  }

  /** Packets can be taken off the front: what matters of a prefix is its unfinished tail. */
  lemma {:induction false} FramesConcat(a: seq<Byte>, b: seq<Byte>)
    ensures Frames(a + b) == Frames(a) + Frames(Tail(a) + b)
    ensures Tail(a + b) == Tail(Tail(a) + b)
  {
    hide Frames, Tail;
    if b == [] {
      assert a + b == a && Tail(a) + b == Tail(a);
      TailOfTail(a);
    } else {
      var c, last := b[..|b| - 1], b[|b| - 1];
      FramesConcat(a, c);
      assert a + b == a + c + [last] && Tail(a) + b == Tail(a) + c + [last];
      Snoc(a + c, last);
      Snoc(Tail(a) + c, last);
    }
  }

  lemma {:induction false} NoFrames(s: seq<Byte>)
    requires CR !in s
    ensures Frames(s) == []
  {
    if s != [] { NoFrames(s[..|s| - 1]); }
  }

  // ---- what proc_input keeps ---------------------------------------------------------

  /**
   The buffer after proc_input: it moves as many bytes as were consumed, not as many
   as are left, so a longer tail keeps stale bytes behind the moved ones.
   */
  function Kept(s: seq<Byte>): (k: seq<Byte>)
    ensures |k| == |s| - Consumed(s)
  {
    var n := Consumed(s);
    if n == 0 then s
    else seq(|s| - n, k requires 0 <= k < |s| - n => if k < n then s[n + k] else s[k])
  }

  predicate ShortTail(s: seq<Byte>) { Consumed(s) == 0 || |s| <= 2 * Consumed(s) }

  lemma ShortTailKept(s: seq<Byte>)
    requires ShortTail(s)
    ensures Kept(s) == Tail(s)
  {
  }

  /** Exactly when the tail is kept: the bytes left behind happen to repeat with the consumed length. */
  lemma KeptIff(s: seq<Byte>)
    ensures Kept(s) == Tail(s) <==>
              Consumed(s) == 0 || forall k :: Consumed(s) <= k < |s| - Consumed(s) ==> s[k] == s[k + Consumed(s)]
  {
    hide Consumed;
    var n := Consumed(s);
    if Kept(s) == Tail(s) {
      forall k | n <= k < |s| - n && n > 0 ensures s[k] == s[k + n] {
        assert Kept(s)[k] == s[k] && Tail(s)[k] == s[n + k];
      }
    } else if n > 0 {
      var k :| 0 <= k < |s| - n && Kept(s)[k] != Tail(s)[k];
      assert s[k] != s[k + n];
    }
  }

  // n bytes ending in CR, then t bytes of which only the last is set
  function Lopsided(n: nat, t: nat): (s: seq<Byte>)
    requires n > 0 && t > 0
    ensures |s| == n + t && s[n - 1] == CR && s[n + t - 1] == 1
    ensures forall i :: 0 <= i < n + t - 1 && i != n - 1 ==> s[i] == 0
  {
    seq(n + t, i => if i == n - 1 then CR else if i == n + t - 1 then 1 else 0)
  }

  /** For given lengths, every tail is kept if and only if it is no longer than the consumed prefix. */
  lemma SafeIffShort(n: nat, t: nat)
    requires n > 0
    ensures (forall s: seq<Byte> :: |s| == n + t && Consumed(s) == n ==> Kept(s) == Tail(s)) <==> t <= n
  {
    if t <= n {
      forall s: seq<Byte> | |s| == n + t && Consumed(s) == n ensures Kept(s) == Tail(s) { ShortTailKept(s); }
    } else {
      var s := Lopsided(n, t);
      ConsumedIs(s, n);
      assert Kept(s)[t - 1] == 0 && Tail(s)[t - 1] == 1;
    }
  }

  // ---- runs of chunks --------------------------------------------------------------------

  /** The packets handed to the parser over a run of chunks, starting from buffer `buf`. */
  function Delivered(buf: seq<Byte>, chunks: seq<seq<Byte>>): seq<seq<Byte>>
    decreases |chunks|
  {
    if chunks == [] then [] else Frames(buf + chunks[0]) + Delivered(Kept(buf + chunks[0]), chunks[1..])
  }

  function Left(buf: seq<Byte>, chunks: seq<seq<Byte>>): seq<Byte>
    decreases |chunks|
  {
    if chunks == [] then buf else Left(Kept(buf + chunks[0]), chunks[1..])
  }

  /** After every read the unfinished tail is no longer than what was consumed. */
  predicate TailsStayShort(buf: seq<Byte>, chunks: seq<seq<Byte>>)
    decreases |chunks|
  {
    chunks == [] || (ShortTail(buf + chunks[0]) && TailsStayShort(Kept(buf + chunks[0]), chunks[1..]))
  }

  function Flatten(chunks: seq<seq<Byte>>): seq<Byte> {
    if chunks == [] then [] else chunks[0] + Flatten(chunks[1..])
  }

  lemma WholeTail(s: seq<Byte>)
    requires CR !in s
    ensures Tail(s) == s
  {
    ConsumedIs(s, 0);
  }

  lemma TailFree(s: seq<Byte>)
    ensures CR !in Tail(s)
  {
  }

  /** However a stream is split into chunks, the packets delivered are the packets of the stream. */
  lemma {:induction false} Reassembly(buf: seq<Byte>, chunks: seq<seq<Byte>>)
    requires CR !in buf && TailsStayShort(buf, chunks)
    ensures Delivered(buf, chunks) == Frames(buf + Flatten(chunks))
    ensures Left(buf, chunks) == Tail(buf + Flatten(chunks))
    decreases |chunks|
  {
    hide Frames, Tail, Kept;
    if chunks == [] {
      assert buf + Flatten(chunks) == buf;
      NoFrames(buf);
      WholeTail(buf);
    } else {
      var s := buf + chunks[0];
      ShortTailKept(s);
      TailFree(s);
      Reassembly(Tail(s), chunks[1..]);
      FramesConcat(s, Flatten(chunks[1..]));
      assert buf + Flatten(chunks) == s + Flatten(chunks[1..]);
    }
  }

  lemma {:induction false} FlattenSnoc(chunks: seq<seq<Byte>>, c: seq<Byte>)
    ensures Flatten(chunks + [c]) == Flatten(chunks) + c
  {
    if chunks == [] {
      assert [] + [c] == [c] && [c][1..] == [] && c + [] == c;
    } else {
      assert (chunks + [c])[1..] == chunks[1..] + [c];
      FlattenSnoc(chunks[1..], c);
      assert chunks[0] + (Flatten(chunks[1..]) + c) == chunks[0] + Flatten(chunks[1..]) + c;
    }
  }

  lemma {:induction false} LeftSnoc(buf: seq<Byte>, chunks: seq<seq<Byte>>, c: seq<Byte>)
    ensures Left(buf, chunks + [c]) == Kept(Left(buf, chunks) + c)
    decreases |chunks|
  {
    hide Kept;
    if chunks == [] {
      assert [] + [c] == [c] && [c][1..] == [];
    } else {
      assert (chunks + [c])[1..] == chunks[1..] + [c];
      LeftSnoc(Kept(buf + chunks[0]), chunks[1..], c);
    }
  }

  lemma {:induction false} DeliveredSnoc(buf: seq<Byte>, chunks: seq<seq<Byte>>, c: seq<Byte>)
    ensures Delivered(buf, chunks + [c]) == Delivered(buf, chunks) + Frames(Left(buf, chunks) + c)
    decreases |chunks|
  {
    hide Frames, Kept;
    if chunks == [] {
      assert [] + [c] == [c] && [c][1..] == [];
      assert Frames(buf + c) + [] == [] + Frames(buf + c);
    } else {
      var rest, next := chunks[1..], Kept(buf + chunks[0]);
      assert (chunks + [c])[1..] == rest + [c];
      DeliveredSnoc(next, rest, c);
      Regroup(Frames(buf + chunks[0]), Delivered(next, rest), Frames(Left(next, rest) + c));
    }
  }

  lemma Regroup<T>(a: seq<T>, b: seq<T>, c: seq<T>)
    ensures a + (b + c) == a + b + c
  {
  }

  lemma FeedSnoc(buf: seq<Byte>, chunks: seq<seq<Byte>>, c: seq<Byte>)
    ensures Delivered(buf, chunks + [c]) == Delivered(buf, chunks) + Frames(Left(buf, chunks) + c)
    ensures Left(buf, chunks + [c]) == Kept(Left(buf, chunks) + c)
    ensures Flatten(chunks + [c]) == Flatten(chunks) + c
  {
    DeliveredSnoc(buf, chunks, c);
    LeftSnoc(buf, chunks, c);
    FlattenSnoc(chunks, c);
  }

  // ---- escaping ----------------------------------------------------------------------------

  /** The in-place decoder of sball_parsepkt: ^Q ^S ^M ^^, other escapes are dropped. */
  function Decode(s: seq<Byte>): (d: seq<Byte>)
    ensures |d| <= |s|
  {
    if s == [] then []
    else if s[0] != HAT then [s[0]] + Decode(s[1..])
    else if |s| == 1 then []
    else Unescape(s[1]) + Decode(s[2..])
  }

  function Unescape(c: Byte): (d: seq<Byte>)
    ensures |d| <= 1
  {
    if c == 0x51 then [0x11]         // Q: XON
    else if c == 0x53 then [0x13]    // S: XOFF
    else if c == 0x4d then [CR]      // M
    else if c == HAT then [HAT]
    else []
  }

  function Escape1(c: Byte): seq<Byte> {
    if c == 0x11 then [HAT, 0x51]
    else if c == 0x13 then [HAT, 0x53]
    else if c == CR then [HAT, 0x4d]
    else if c == HAT then [HAT, HAT]
    else [c]
  }

  function Escape(p: seq<Byte>): seq<Byte> {
    if p == [] then [] else Escape1(p[0]) + Escape(p[1..])
  }

  lemma {:induction false} DecodeEscape(p: seq<Byte>)
    ensures Decode(Escape(p)) == p && CR !in Escape(p)
  {
    if p != [] {
      DecodeEscape(p[1..]);
      var e, rest := Escape1(p[0]), Escape(p[1..]);
      assert (e + rest)[|e|..] == rest;
      assert p == [p[0]] + p[1..];
    }
  }

  datatype Packet = Packet(id: Byte, data: seq<Byte>)

  /** A packet on the wire. */
  function Encode(p: Packet): seq<Byte> { [p.id] + Escape(p.data) + [CR] }

  function EncodeAll(ps: seq<Packet>): seq<Byte> {
    if ps == [] then [] else EncodeAll(ps[..|ps| - 1]) + Encode(ps[|ps| - 1])
  }

  /** What the parser sees of one packet; an empty line is seen as a packet with id 0. */
  function Unframe(f: seq<Byte>): Packet {
    if f == [] then Packet(0, []) else Packet(f[0], Decode(f[1..]))
  }

  function UnframeAll(fs: seq<seq<Byte>>): (ps: seq<Packet>)
    ensures |ps| == |fs| && forall i :: 0 <= i < |fs| ==> ps[i] == Unframe(fs[i])
  {
    seq(|fs|, i requires 0 <= i < |fs| => Unframe(fs[i]))
  }

  lemma OneFrame(p: Packet)
    requires p.id != CR
    ensures Frames(Encode(p)) == [[p.id] + Escape(p.data)] && Tail(Encode(p)) == []
    ensures Unframe([p.id] + Escape(p.data)) == p
  {
    hide Frames, Tail, Escape, Decode;
    DecodeEscape(p.data);
    var line := [p.id] + Escape(p.data);
    NoFrames(line);
    WholeTail(line);
    Snoc(line, CR);
    assert line[1..] == Escape(p.data);
  }

  lemma UnframeSnoc(fs: seq<seq<Byte>>, f: seq<Byte>)
    ensures UnframeAll(fs + [f]) == UnframeAll(fs) + [Unframe(f)]
  {
    hide Unframe;
  }

  // the packets of ps, and nothing else, are on the wire
  ghost predicate OnWire(ps: seq<Packet>, wire: seq<Byte>) { UnframeAll(Frames(wire)) == ps && Tail(wire) == [] }

  lemma AppendFrame(ps: seq<Packet>, wire: seq<Byte>, p: Packet)
    requires p.id != CR && OnWire(ps, wire)
    ensures OnWire(ps + [p], wire + Encode(p))
  {
    hide Frames, Tail, Encode, Unframe, UnframeAll;
    OneFrame(p);
    FramesConcat(wire, Encode(p));
    assert [] + Encode(p) == Encode(p);
    UnframeSnoc(Frames(wire), [p.id] + Escape(p.data));
  }

  lemma {:induction false} FramesOfEncoded(ps: seq<Packet>)
    requires forall p :: p in ps ==> p.id != CR
    ensures OnWire(ps, EncodeAll(ps))
  {
    if ps != [] {
      hide OnWire, Encode;
      FramesOfEncoded(ps[..|ps| - 1]);
      AppendFrame(ps[..|ps| - 1], EncodeAll(ps[..|ps| - 1]), ps[|ps| - 1]);
      assert ps == ps[..|ps| - 1] + [ps[|ps| - 1]];
    }
  }

  /**
   Every list of packets arrives: escaped, terminated and concatenated, however the
   bytes are split into chunks, as long as no read leaves a tail longer than what it
   completes, the parser sees exactly these packets in order and nothing is left.
   */
  lemma FramingRoundTrip(ps: seq<Packet>, chunks: seq<seq<Byte>>)
    requires forall p :: p in ps ==> p.id != CR
    requires Flatten(chunks) == EncodeAll(ps) && TailsStayShort([], chunks)
    ensures UnframeAll(Delivered([], chunks)) == ps && Left([], chunks) == []
  {
    Reassembly([], chunks);
    assert [] + Flatten(chunks) == Flatten(chunks);
    FramesOfEncoded(ps);
  }

  // ---- a long tail ----------------------------------------------------------------------------

  // a line and the beginning of another
  lemma LineAndRest(line: seq<Byte>, rest: seq<Byte>)
    requires CR !in line && CR !in rest
    ensures var s := line + [CR] + rest; Frames(s) == [line] && Consumed(s) == |line| + 1
  {
    hide Frames, Tail, Consumed;
    NoFrames(line);
    WholeTail(line);
    Snoc(line, CR);
    NoFrames(rest);
    FramesConcat(line + [CR], rest);
    assert [] + rest == rest;
    ConsumedIs(line + [CR] + rest, |line| + 1);
  }

  lemma FirstRead()
    ensures var s: seq<Byte> := [1, CR, 2, 3, 4, 5]; Frames(s) == [[1]] && Consumed(s) == 2 && Kept(s) == [2, 3, 2, 3]
  {
    hide Frames, Tail, Consumed;
    var s: seq<Byte> := [1, CR, 2, 3, 4, 5];
    LineAndRest([1], [2, 3, 4, 5]);
    assert s == [1] + [CR] + [2, 3, 4, 5];
    assert Kept(s) == [2, 3, 2, 3];
  }

  lemma SecondRead()
    ensures Frames([2, 3, 2, 3, CR]) == [[2, 3, 2, 3]]
  {
    hide Frames, Tail, Consumed;
    LineAndRest([2, 3, 2, 3], []);
    assert [2, 3, 2, 3] + [CR] + [] == [2, 3, 2, 3, CR];
  }

  lemma TwoReads(a: seq<Byte>, b: seq<Byte>)
    ensures Delivered([], [a, b]) == Frames(a) + Frames(Kept(a) + b) && Flatten([a, b]) == a + b
    ensures TailsStayShort([], [a, b]) ==> ShortTail(a)
  {
    hide Frames, Kept, Consumed;
    assert [] + a == a && [a, b][1..] == [b] && [b][1..] == [];
    assert Delivered(Kept(a), [b]) == Frames(Kept(a) + b) + [];
    assert Flatten([b]) == b + [];
  }

  lemma Plain3()
    ensures Escape([]) == [] && Escape([3, 4, 5]) == [3, 4, 5] && Decode([]) == [] && Decode([3, 2, 3]) == [3, 2, 3]
  {
    assert Decode([3]) == [3];
    assert [2, 3][1..] == [3] && [3, 2, 3][1..] == [2, 3];
    assert Decode([2, 3]) == [2, 3];
    assert Escape([5]) == [5] && [4, 5][1..] == [5] && [3, 4, 5][1..] == [4, 5];
    assert Escape([4, 5]) == [4, 5];
  }

  lemma LongFirst()
    ensures !ShortTail([1, CR, 2, 3, 4, 5])
  {
    hide Consumed;
    FirstRead();
  }

  lemma TwoSent()
    ensures EncodeAll([Packet(1, []), Packet(2, [3, 4, 5])]) == [1, CR, 2, 3, 4, 5] + [CR]
  {
    hide Escape, Decode;
    var a, b := Packet(1, []), Packet(2, [3, 4, 5]);
    Plain3();
    assert [a][..0] == [] && [a, b][..1] == [a];
    assert EncodeAll([a]) == Encode(a);
  }

  lemma TwoSeen()
    ensures UnframeAll([[1]] + [[2, 3, 2, 3]]) == [Packet(1, []), Packet(2, [3, 2, 3])]
  {
    hide Escape, Decode;
    Plain3();
    var f, g: seq<Byte> := [1], [2, 3, 2, 3];
    assert f[1..] == [] && g[1..] == [3, 2, 3];
    assert Unframe(f) == Packet(1, []) && Unframe(g) == Packet(2, [3, 2, 3]);
  }

  /** A split that leaves a long tail: two packets are sent, and the parser gets another second one. */
  lemma LongTailGarbles()
    ensures var sent := [Packet(1, []), Packet(2, [3, 4, 5])];
            var chunks: seq<seq<Byte>> := [[1, CR, 2, 3, 4, 5], [CR]];
            && Flatten(chunks) == EncodeAll(sent) && !TailsStayShort([], chunks)
            && UnframeAll(Delivered([], chunks)) == [Packet(1, []), Packet(2, [3, 2, 3])]
  {
    hide Frames, Kept, Decode, Escape, Delivered, Flatten, TailsStayShort, Consumed, EncodeAll, Encode, Unframe,
      UnframeAll, ShortTail;
    var first, last: seq<Byte> := [1, CR, 2, 3, 4, 5], [CR];
    FirstRead();
    SecondRead();
    TwoReads(first, last);
    assert [2, 3, 2, 3] + last == [2, 3, 2, 3, CR];
    assert !ShortTail(first) by { LongFirst(); }
    TwoSent();
    TwoSeen();
  }

  // ---- a full buffer ---------------------------------------------------------------------------

  /** How many bytes a read may deliver. */
  function Room(buf: seq<Byte>): nat
    requires |buf| <= READ_MAX
  {
    READ_MAX - |buf|
  }

  predicate Fits(buf: seq<Byte>, chunks: seq<seq<Byte>>)
    decreases |chunks|
  {
    |buf| <= READ_MAX &&
    (chunks == [] || (|chunks[0]| <= Room(buf) && Fits(Kept(buf + chunks[0]), chunks[1..])))
  }

  /**
   The buffer never holds more than 255 bytes, so the code that discards a full
   buffer is never reached; 255 bytes without a CR stay for good, and nothing is
   delivered any more.
   */
  lemma {:induction false} FullBufferStays(buf: seq<Byte>, chunks: seq<seq<Byte>>)
    requires Fits(buf, chunks)
    ensures |Left(buf, chunks)| <= READ_MAX < BUF_SZ
    ensures |buf| == READ_MAX && CR !in buf ==> Left(buf, chunks) == buf && Delivered(buf, chunks) == []
    decreases |chunks|
  {
    if chunks != [] {
      var s := buf + chunks[0];
      FullBufferStays(Kept(s), chunks[1..]);
      if |buf| == READ_MAX && CR !in buf {
        assert s == buf;
        NoFrames(buf);
        ConsumedIs(buf, 0);
      }
    }
  }
}
