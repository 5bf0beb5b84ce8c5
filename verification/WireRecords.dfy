/**
 The bytes clients send, on a little-endian machine: records of a type and seven integers or
 a piece of text, and the messages that come before the first record.
 */
module WireRecords {
  import opened Basics
  import opened Requests
  import opened Rounds
  import Connections
  import StringTransfer

  // ---- numbers --------------------------------------------------------------------------------

  /** The four bytes of a 32-bit number, lowest first; a negative one in two's complement. */
  function Quad(n: int): (b: seq<int>)
    requires -INT_LIMIT <= n < UINT_LIMIT
    ensures |b| == 4 && forall i :: 0 <= i < 4 ==> 0 <= b[i] < 256
  {
    var u := if n < 0 then n + UINT_LIMIT else n;
    [u % 256, u / 256 % 256, u / 256 / 256 % 256, u / 256 / 256 / 256]
  }

  lemma QuadIs(n: int)
    requires -INT_LIMIT <= n < UINT_LIMIT
    ensures var b := Quad(n);
            b[0] + 256 * b[1] + 65536 * b[2] + 16777216 * b[3] == if n < 0 then n + UINT_LIMIT else n
  {
  }

  lemma WordsIs(b: seq<int>, at: nat, n: int)
    requires at + 4 <= |b| && -INT_LIMIT <= n < UINT_LIMIT && b[at..at + 4] == Quad(n)
    ensures UWord(b, at) == (if n < 0 then n + UINT_LIMIT else n) && (n < INT_LIMIT ==> SWord(b, at) == n)
  {
    hide Quad;
    QuadIs(n);
    forall i | 0 <= i < 4 ensures b[at + i] == Quad(n)[i] {
      assert b[at..at + 4][i] == b[at + i];
    }
  }

  // ---- records ----------------------------------------------------------------------------------

  function Quads(d: seq<int>): (b: seq<int>)
    requires forall i :: 0 <= i < |d| ==> IsInt(d[i])
    ensures |b| == 4 * |d|
  {
    if d == [] then []
    else
      assert IsInt(d[|d| - 1]);
      Quads(d[..|d| - 1]) + Quad(d[|d| - 1])
  }

  lemma {:induction false} QuadsAt(d: seq<int>, i: nat)
    requires (forall i :: 0 <= i < |d| ==> IsInt(d[i])) && i < |d|
    ensures Quads(d)[4 * i..4 * i + 4] == Quad(d[i])
  {
    hide Quad;
    if i < |d| - 1 {
      QuadsAt(d[..|d| - 1], i);
      assert Quads(d)[4 * i..4 * i + 4] == Quads(d[..|d| - 1])[4 * i..4 * i + 4];
    }
  }

  /** A record of a type and seven integers is taken for that request; the high half of the type does not count. */
  lemma PlainRecord(ty: int, high: int, q: seq<int>)
    requires 0 <= ty < 0x1_0000 && 0 <= high < 0x1_0000 && !IsText(ty)
    requires |q| == 7 && forall i :: 0 <= i < 7 ==> IsInt(q[i])
    ensures Decode(Quad(ty + 0x1_0000 * high) + Quads(q)) == Plain(ty, q)
  {
    hide Quad, Quads, UWord, SWord, IsText;
    var head := Quad(ty + 0x1_0000 * high);
    var b := head + Quads(q);
    assert b[0..4] == head;
    WordsIs(b, 0, ty + 0x1_0000 * high);
    forall i | 0 <= i < 7 ensures SWord(b, 4 + 4 * i) == q[i] {
      QuadsAt(q, i);
      assert b[4 + 4 * i..4 + 4 * i + 4] == Quads(q)[4 * i..4 * i + 4];
      WordsIs(b, 4 + 4 * i, q[i]);
    }
    TypeHalf(ty, high);
    assert Decode(b).data == q;
  }

  lemma TypeHalf(ty: int, high: int)
    requires 0 <= ty < 0x1_0000
    ensures (ty + 0x1_0000 * high) % 0x1_0000 == ty
  {
  }

  /** A record of a type, 24 characters and a length word is taken for that packet. */
  lemma TextRecord(ty: int, high: int, s: string, word: int)
    requires IsText(ty) && 0 <= high < 0x1_0000 && IsInt(word)
    requires |s| == 24 && forall i :: 0 <= i < 24 ==> s[i] as int < 256
    ensures var text := seq(24, i requires 0 <= i < 24 => s[i] as int);
            Decode(Quad(ty + 0x1_0000 * high) + text + Quad(word)) == Text(ty, StringTransfer.Packet(s, word))
  {
    hide Quad, UWord, SWord;
    var head := Quad(ty + 0x1_0000 * high);
    var text := seq(24, i requires 0 <= i < 24 => s[i] as int);
    var b := head + text + Quad(word);
    assert b[0..4] == head && b[28..32] == Quad(word);
    WordsIs(b, 0, ty + 0x1_0000 * high);
    WordsIs(b, 28, word);
    TypeHalf(ty, high);
    forall i | 0 <= i < 24 ensures Byte(b[4 + i]) as char == s[i] {
      assert b[4 + i] == text[i];
    }
    assert Decode(b).packet.chunk == s;
  }

  // ---- before the first record -----------------------------------------------------------------------

  /** The handshake: the version asked for, but no more than 1, is taken and sent back, and sets the event mask. */
  lemma Handshake(c: Connections.Conn, v: int)
    requires c.Valid() && c.proto == 0 && 0 <= v < 256
    ensures var w := if v > 1 then 1 else v;
            Connections.Serve(c, [v, 0x55, 0xaa, 0x7f]) ==
            (c.(proto := w, evmask := if w == 1 then 7 else c.evmask), Connections.Reply(0x7faa_5500 + w))
    ensures Connections.NewConn() == Connections.Conn(0, 0x3f80_0000, 3, [])
  {
  }

  /** Any other message of a client without handshake is its sensitivity, if it is a finite number. */
  lemma SensMessage(c: Connections.Conn, n: int)
    requires c.Valid() && c.proto == 0 && 0 <= n < UINT_LIMIT && n / 256 != 0x7f_aa55
    ensures Connections.Serve(c, Quad(n)) ==
            (c.(sens := if n / 0x80_0000 % 256 != 255 then n else c.sens), Connections.Silence)
  {
    hide Quad;
    QuadIs(n);
  }
}
