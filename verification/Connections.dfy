/**
 One client connection: the version handshake, the sensitivity messages of protocol
 version 0 and the reassembly of 32-byte requests of version 1 from whatever each
 read returns.
 */
module Connections {

  const RECORD := 32
  const MAX_PROTO_VER := 1
  const EVMASK_MOTION_BUTTON := 0x03
  const EVMASK_MOTION_BUTTON_DEV := 0x07
  const FLOAT_ONE := 0x3f80_0000

  // REQ_TAG | REQ_CHANGE_PROTO without the version byte
  const PROTO_TAG := 0x7faa55

  // a little-endian 32-bit word
  function Word(b: seq<int>): int
    requires |b| == 4
  {
    b[0] + 256 * b[1] + 65536 * b[2] + 16777216 * b[3]
  }

  // an IEEE single is finite unless its exponent bits are all ones
  predicate Finite(bits: int) { bits / 0x80_0000 % 256 != 255 }

  datatype Conn = Conn(proto: int, sens: int, evmask: int, buf: seq<int>) {
    predicate Valid() { 0 <= proto <= MAX_PROTO_VER && |buf| < RECORD && (proto == 0 ==> buf == []) }
  }

  function NewConn(): (c: Conn)
    ensures c.Valid()
  {
    Conn(0, FLOAT_ONE, EVMASK_MOTION_BUTTON, [])
  }

  /** How many bytes the next read asks for. */
  function Wanted(c: Conn): int { if c.proto == 0 then 4 else RECORD - |c.buf| }

  /** A read that returned data: at most what was asked for, and version-0 messages whole. */
  predicate Got(c: Conn, b: seq<int>) { 0 < |b| <= Wanted(c) && (c.proto == 0 ==> |b| == 4) }

  datatype Served = Silence | Reply(msg: int) | Request(record: seq<int>)

  /** What one successful read makes of a connection. */
  function Serve(c: Conn, b: seq<int>): (r: (Conn, Served))
    requires c.Valid() && Got(c, b)
  {
    if c.proto == 0 then
      var msg := Word(b);
      if msg / 256 == PROTO_TAG then
        var v := if msg % 256 > MAX_PROTO_VER then MAX_PROTO_VER else msg % 256;
        (c.(proto := v, evmask := if v > 0 then EVMASK_MOTION_BUTTON_DEV else c.evmask), Reply(PROTO_TAG * 256 + v))
      else (if Finite(msg) then c.(sens := msg) else c, Silence)
    else
      var all := c.buf + b;
      if |all| >= RECORD then (c.(buf := []), Request(all)) else (c.(buf := all), Silence)
  }

  lemma ServeValid(c: Conn, b: seq<int>)
    requires c.Valid() && Got(c, b)
    ensures Serve(c, b).0.Valid() && c.proto <= Serve(c, b).0.proto
    ensures Serve(c, b).1.Request? ==> c.proto == 1 && |Serve(c, b).1.record| == RECORD
  {
  }

  // ---- runs --------------------------------------------------------------------------

  /** The reads of a connection, each as the state it meets allows. */
  predicate Reads(c: Conn, rs: seq<seq<int>>)
    requires c.Valid()
    decreases |rs|
  {
    rs != [] ==> Got(c, rs[0]) && (ServeValid(c, rs[0]); Reads(Serve(c, rs[0]).0, rs[1..]))
  }

  function After(c: Conn, rs: seq<seq<int>>): (k: Conn)
    requires c.Valid() && Reads(c, rs)
    ensures k.Valid()
    decreases |rs|
  {
    if rs == [] then c else ServeValid(c, rs[0]); After(Serve(c, rs[0]).0, rs[1..])
  }

  // the requests handled, in order
  function Handled(c: Conn, rs: seq<seq<int>>): seq<seq<int>>
    requires c.Valid() && Reads(c, rs)
    decreases |rs|
  {
    if rs == [] then []
    else
      ServeValid(c, rs[0]);
      var (k, out) := Serve(c, rs[0]);
      (if out.Request? then [out.record] else []) + Handled(k, rs[1..])
  }

  function Concat(rs: seq<seq<int>>): seq<int> { if rs == [] then [] else rs[0] + Concat(rs[1..]) }

  /** The successive whole 32-byte blocks of a stream. */
  function Blocks(s: seq<int>): seq<seq<int>> { if |s| < RECORD then [] else [s[..RECORD]] + Blocks(s[RECORD..]) }

  function Leftover(s: seq<int>): (r: seq<int>)
    ensures |r| < RECORD
  {
    if |s| < RECORD then s else Leftover(s[RECORD..])
  }

  /**
   Reassembly: however the bytes of a version-1 connection are split into reads, exactly
   the successive 32-byte blocks of the stream are handled, the incomplete rest is kept,
   and the version never changes again.
   */
  lemma {:induction false} Reassembly(c: Conn, rs: seq<seq<int>>)
    requires c.Valid() && c.proto == 1 && Reads(c, rs)
    ensures Handled(c, rs) == Blocks(c.buf + Concat(rs))
    ensures After(c, rs) == c.(buf := Leftover(c.buf + Concat(rs)))
    decreases |rs|
  {
    var stream := c.buf + Concat(rs);
    if rs == [] {
      assert stream == c.buf;
    } else {
      ServeValid(c, rs[0]);
      var (k, out) := Serve(c, rs[0]);
      Reassembly(k, rs[1..]);
      assert stream == (c.buf + rs[0]) + Concat(rs[1..]);
      if out.Request? {
        assert stream[..RECORD] == out.record && stream[RECORD..] == Concat(rs[1..]);
        assert k.buf + Concat(rs[1..]) == Concat(rs[1..]);
      }
    }
  }

  // no read of the run asks for another version
  predicate NoHandshake(rs: seq<seq<int>>) { forall r :: r in rs && |r| == 4 ==> Word(r) / 256 != PROTO_TAG }

  function LastSens(sens: int, rs: seq<seq<int>>): int {
    if rs == [] then sens
    else
      var r := rs[|rs| - 1];
      if |r| == 4 && Finite(Word(r)) then Word(r) else LastSens(sens, rs[..|rs| - 1])
  }

  lemma {:induction false} Version0(c: Conn, rs: seq<seq<int>>)
    requires c.Valid() && c.proto == 0 && Reads(c, rs) && NoHandshake(rs)
    ensures Handled(c, rs) == [] && After(c, rs) == c.(sens := LastSens(c.sens, rs))
    decreases |rs|
  {
    if rs != [] {
      ServeValid(c, rs[0]);
      assert rs[0] in rs;
      var k := Serve(c, rs[0]).0;
      Version0(k, rs[1..]);
      LastSensFirst(c.sens, rs);
    }
  }

  lemma LastSensFirst(sens: int, rs: seq<seq<int>>)
    requires rs != []
    ensures LastSens(sens, rs) ==
            LastSens(if |rs[0]| == 4 && Finite(Word(rs[0])) then Word(rs[0]) else sens, rs[1..])
  {
    hide Finite, Word;
    if |rs| > 1 {
      assert rs[1..][..|rs[1..]| - 1] == rs[..|rs| - 1][1..];
      LastSensFirst(sens, rs[..|rs| - 1]);
    } else {
      assert rs[..0] == [];
    }
  }

  lemma ReadsSplit(c: Conn, x: seq<seq<int>>, y: seq<seq<int>>)
    requires c.Valid() && Reads(c, x + y)
    ensures Reads(c, x) && Reads(After(c, x), y)
    ensures Handled(c, x + y) == Handled(c, x) + Handled(After(c, x), y)
    ensures After(c, x + y) == After(After(c, x), y)
    decreases |x|
  {
    hide Serve, Got;
    if x == [] {
      assert x + y == y;
    } else {
      assert (x + y)[0] == x[0] && (x + y)[1..] == x[1..] + y;
      ServeValid(c, x[0]);
      ReadsSplit(Serve(c, x[0]).0, x[1..], y);
    }
  }

  /**
   A whole connection: sensitivity messages, the handshake word, then requests. The
   version becomes what was asked for but at most 1; asking for 0 keeps it at 0. From
   then on exactly the 32-byte blocks of the stream are handled.
   */
  lemma Session(v0: seq<seq<int>>, hello: seq<int>, v1: seq<seq<int>>)
    requires Reads(NewConn(), v0 + [hello] + v1) && NoHandshake(v0)
    requires |hello| == 4 && Word(hello) / 256 == PROTO_TAG && Word(hello) % 256 != 0
    ensures Handled(NewConn(), v0 + [hello] + v1) == Blocks(Concat(v1))
    ensures After(NewConn(), v0 + [hello] + v1) ==
            Conn(1, LastSens(FLOAT_ONE, v0), EVMASK_MOTION_BUTTON_DEV, Leftover(Concat(v1)))
  {
    hide Finite, Reads, Handled, After, Blocks, Leftover, Word;
    var c := NewConn();
    ReadsSplit(c, v0 + [hello], v1);
    ReadsSplit(c, v0, [hello]);
    Version0(c, v0);
    var k := After(c, v0);
    Hello(k, hello);
    Reassembly(After(k, [hello]), v1);
    assert [] + Concat(v1) == Concat(v1);
  }

  lemma Hello(k: Conn, hello: seq<int>)
    requires k.Valid() && k.proto == 0 && Reads(k, [hello]) && |hello| == 4
    requires Word(hello) / 256 == PROTO_TAG && Word(hello) % 256 != 0
    ensures Handled(k, [hello]) == []
    ensures After(k, [hello]) == k.(proto := 1, evmask := EVMASK_MOTION_BUTTON_DEV, buf := [])
  {
    hide Finite, Word;
    ServeValid(k, hello);
    assert [hello][1..] == [];
    assert Handled(Serve(k, hello).0, []) == [];
  }

  /** The split of a stream into reads cannot be observed. */
  lemma SplitInvisible(c: Conn, x: seq<seq<int>>, y: seq<seq<int>>)
    requires c.Valid() && c.proto == 1 && Reads(c, x) && Reads(c, y) && Concat(x) == Concat(y)
    ensures Handled(c, x) == Handled(c, y) && After(c, x) == After(c, y)
  {
    hide Handled, After, Blocks, Leftover;
    Reassembly(c, x);
    Reassembly(c, y);
  }
}
