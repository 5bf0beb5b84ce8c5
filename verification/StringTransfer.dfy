/**
 The chunked string transfer of src/proto.c.

 A string travels as 32-byte records: 24 bytes of text and a word holding the
 number of bytes still to come, with bit 16 set on every record but the first.
 `SendStr` is the sender's loop, `StrBuf.Recv` the receiver working in place on
 its buffer, and `Step` the receiver on values, used to reason about whole runs.
 */
module StringTransfer {
  import opened Basics

  const CHUNK := 24
  const CONT := 0x10000

  // One record: the 24 text bytes (data[0..5]) and the length word (data[6]).
  datatype Packet = Packet(chunk: string, word: int) {
    ghost predicate Valid() { |chunk| == CHUNK && IsInt(word) }
  }

  // bit 16 of the length word is clear
  predicate IsFirst(p: Packet) { p.word / CONT % 2 == 0 }

  function RemLen(p: Packet): nat { p.word % CONT }

  function Min(a: int, b: int): int { if a < b then a else b }

  // len | REQSTR_CONT_BIT for a non-negative len
  function WithContBit(len: nat): nat {
    if len / CONT % 2 == 1 then len else len + CONT
  }

  // ---- sender ----------------------------------------------------------

  /** How many records a string of n bytes takes: at least one, then one per chunk. */
  function PacketCount(n: nat): nat {
    if n == 0 then 1 else (n + CHUNK - 1) / CHUNK
  }

  /** `ps` carries `s`: record k holds bytes 24k.. of it and announces what is left from there. */
  ghost predicate Carries(ps: seq<Packet>, s: string) {
    && |ps| == PacketCount(|s|)
    && forall k :: 0 <= k < |ps| ==> CarriesAt(ps[k], s, k)
  }

  ghost predicate CarriesAt(p: Packet, s: string, k: nat) {
    && CHUNK * k <= |s|
    && |p.chunk| == CHUNK
    && p.word == (if k == 0 then |s| else WithContBit(|s| - CHUNK * k))
    && var m := Min(CHUNK, |s| - CHUNK * k);
       p.chunk[..m] == s[CHUNK * k..CHUNK * k + m]
  }

  method SendStr(s: string) returns (out: seq<Packet>)
    ensures Carries(out, s)
  {
    var len := |s|;
    var pos := 0;
    var rr := Packet(seq(CHUNK, _ => '\0'), len);
    out := [];
    while true
      invariant pos == CHUNK * |out| && len == |s| - pos
      invariant |rr.chunk| == CHUNK
      invariant out == [] || len > 0
      invariant len >= 0
      invariant rr.word == (if out == [] then |s| else WithContBit(len))
      invariant forall k :: 0 <= k < |out| ==> CarriesAt(out[k], s, k)
      decreases len
    {
      var m := Min(len, CHUNK);
      // memcpy leaves the bytes of the previous chunk behind a short one
      rr := rr.(chunk := s[pos..pos + m] + rr.chunk[m..]);
      out := out + [rr];
      pos := pos + CHUNK;
      len := len - CHUNK;
      if len <= 0 { break; }
      rr := rr.(word := WithContBit(len));
    }
  }

  // ---- receiver on values -------------------------------------------------

  /** Idle: no buffer. Live: the bytes between buf and endp, and the two counters. */
  datatype Receiver = Idle | Live(data: string, size: int, awaited: int) {
    ghost predicate Valid() {
      Live? ==> 0 <= awaited && |data| + awaited + 1 == size <= 0x10000
    }
  }

  datatype Outcome = Outcome(state: Receiver, status: int)

  function Step(r: Receiver, p: Packet): (o: Outcome)
    requires |p.chunk| == CHUNK
    ensures r.Valid() ==> o.state.Valid()
    ensures o.status == 1 ==> o.state.Live? && o.state.awaited == 0
    ensures o.status == -1 ==> o.state == r
  {
    if p.word < 0 then Outcome(r, -1)
    else
      var len := RemLen(p);
      var r := if IsFirst(p) then Live("", len + 1, len) else r;
      if r.Idle? || len != r.awaited || r.awaited > r.size || |r.data| >= r.size then Outcome(r, -1)
      else
        var n := Min(len, CHUNK);
        var awaited := r.awaited - n;
        Outcome(Live(r.data + p.chunk[..n], r.size, awaited), if awaited == 0 then 1 else 0)
  }

  ghost predicate Packets(ps: seq<Packet>) { forall p :: p in ps ==> p.Valid() }

  function After(r: Receiver, ps: seq<Packet>): Receiver
    requires forall p :: p in ps ==> |p.chunk| == CHUNK
  {
    if ps == [] then r
    else Step(After(r, ps[..|ps| - 1]), ps[|ps| - 1]).state
  }

  // The status returned for record k of the run.
  function Status(r: Receiver, ps: seq<Packet>, k: nat): int
    requires forall p :: p in ps ==> |p.chunk| == CHUNK
    requires k < |ps|
  {
    Step(After(r, ps[..k]), ps[k]).status
  }

  lemma {:induction false} AfterValid(r: Receiver, ps: seq<Packet>)
    requires r.Valid() && Packets(ps)
    ensures After(r, ps).Valid()
  {
    if ps != [] { AfterValid(r, ps[..|ps| - 1]); }
  }

  // ---- round trip --------------------------------------------------------

  // The length word of record k, as the receiver reads it.
  lemma WordOf(p: Packet, s: string, k: nat)
    requires |s| <= 0xffff && CarriesAt(p, s, k) && (k == 0 || CHUNK * k < |s|)
    ensures p.word >= 0 && RemLen(p) == |s| - CHUNK * k && (IsFirst(p) <==> k == 0)
  {
  }

  // Record k extends what records 0..k-1 delivered.
  lemma Deliver(r: Receiver, s: string, p: Packet, k: nat)
    requires |s| <= 0xffff && CarriesAt(p, s, k) && (k == 0 || CHUNK * k < |s|)
    requires k > 0 ==> r == Live(s[..CHUNK * k], |s| + 1, |s| - CHUNK * k)
    ensures var m := Min(|s|, CHUNK * (k + 1));
            Step(r, p) == Outcome(Live(s[..m], |s| + 1, |s| - m), if m == |s| then 1 else 0)
  {
    WordOf(p, s, k);
    var n := Min(CHUNK, |s| - CHUNK * k);
    assert s[..CHUNK * k] + s[CHUNK * k..CHUNK * k + n] == s[..CHUNK * k + n];
    if k == 0 { assert "" + p.chunk[..n] == s[..n]; }
  }

  lemma {:induction false} Progress(r: Receiver, s: string, ps: seq<Packet>, k: nat)
    requires |s| <= 0xffff && Carries(ps, s)
    requires 1 <= k <= |ps|
    ensures After(r, ps[..k]) == Live(s[..Min(|s|, CHUNK * k)], |s| + 1, |s| - Min(|s|, CHUNK * k))
    ensures Status(r, ps, k - 1) == if k == |ps| then 1 else 0
  {
    assert ps[..k][..k - 1] == ps[..k - 1];
    assert CarriesAt(ps[k - 1], s, k - 1);
    if k > 1 { Progress(r, s, ps, k - 1); }
    Deliver(After(r, ps[..k - 1]), s, ps[k - 1], k - 1);
  }

  /**
   Whatever the receiver held before, the records of a string of at most 65535
   bytes are answered 0, 0, ..., 0, 1 and leave exactly that string in the buffer.
   */
  lemma RoundTrip(r: Receiver, s: string, ps: seq<Packet>)
    requires |s| <= 0xffff && Carries(ps, s)
    ensures forall k :: 0 <= k < |ps| ==> Status(r, ps, k) == if k == |ps| - 1 then 1 else 0
    ensures After(r, ps) == Live(s, |s| + 1, 0)
  {
    forall k | 0 <= k < |ps|
      ensures Status(r, ps, k) == if k == |ps| - 1 then 1 else 0
    {
      Progress(r, s, ps, k + 1);
    }
    Progress(r, s, ps, |ps|);
    assert ps[..|ps|] == ps && s[..|s|] == s;
  }

  /** The 16-bit length field is the exact limit: a longer string never arrives. */
  lemma ArrivesIffShort(r: Receiver, s: string, ps: seq<Packet>)
    requires r.Valid() && Packets(ps) && Carries(ps, s)
    ensures |s| <= 0xffff <==> After(r, ps).Live? && After(r, ps).data == s
  {
    if |s| <= 0xffff {
      RoundTrip(r, s, ps);
    } else {
      AfterValid(r, ps);
    }
  }

  // ---- safety for arbitrary records ---------------------------------------

  /** The accepted records of the transfer in progress: those since the latest accepted first record. */
  function Transfer(ps: seq<Packet>): (t: seq<Packet>)
    requires forall p :: p in ps ==> |p.chunk| == CHUNK
    ensures forall p :: p in t ==> p in ps
  {
    if ps == [] then []
    else
      var last := ps[|ps| - 1];
      var t := Transfer(ps[..|ps| - 1]);
      if Status(Idle, ps, |ps| - 1) == -1 then t
      else if IsFirst(last) then [last]
      else t + [last]
  }

  function Chunks(t: seq<Packet>): (s: string)
    requires forall p :: p in t ==> |p.chunk| == CHUNK && p.word >= 0
  {
    if t == [] then ""
    else Chunks(t[..|t| - 1]) + t[|t| - 1].chunk[..Min(CHUNK, RemLen(t[|t| - 1]))]
  }

  /** One first record announcing the total, then continuations that count it down by 24. */
  ghost predicate InOrder(t: seq<Packet>) {
    && t != []
    && (forall k :: 0 <= k < |t| ==> t[k].word >= 0 && (IsFirst(t[k]) <==> k == 0))
    && (forall k :: 0 <= k < |t| ==> RemLen(t[k]) == RemLen(t[0]) - Min(RemLen(t[0]), CHUNK * k))
  }

  /** No record of `ps` after the one at position f starts a transfer. */
  ghost predicate LatestFirst(ps: seq<Packet>, f: nat) {
    && f < |ps|
    && ps[f].word >= 0 && IsFirst(ps[f])
    && forall k :: f < k < |ps| ==> ps[k].word < 0 || !IsFirst(ps[k])
  }

  // What the buffer holds, told from the accepted records of the transfer in progress.
  ghost predicate Holds(r: Receiver, t: seq<Packet>) {
    && r.Valid() && Packets(t)
    && (r.Live? ==>
          && InOrder(t)
          && r.data == Chunks(t)
          && r.size == RemLen(t[0]) + 1
          && r.awaited == RemLen(t[0]) - Min(RemLen(t[0]), CHUNK * |t|))
  }

  lemma Start(r: Receiver, p: Packet)
    requires p.Valid() && p.word >= 0 && IsFirst(p)
    ensures Step(r, p).status >= 0 && Holds(Step(r, p).state, [p])
  {
    assert [p][..0] == [];
  }

  lemma Continue(r: Receiver, t: seq<Packet>, p: Packet)
    requires Holds(r, t) && p.Valid() && !IsFirst(p) && Step(r, p).status != -1
    ensures Holds(Step(r, p).state, t + [p])
  {
    assert (t + [p])[..|t|] == t;
  }

  // the step of a run, and of its transfer
  lemma TransferSnoc(ps: seq<Packet>, p: Packet)
    requires Packets(ps) && p.Valid()
    ensures Packets(ps + [p])
    ensures var o := Step(After(Idle, ps), p);
            && After(Idle, ps + [p]) == o.state
            && Transfer(ps + [p]) ==
               if o.status == -1 then Transfer(ps)
               else if IsFirst(p) then [p]
               else Transfer(ps) + [p]
  {
    hide Step;
    assert (ps + [p])[..|ps|] == ps;
  }

  // only a live transfer goes on
  lemma NotStarting(r: Receiver, p: Packet)
    requires p.Valid() && !(p.word >= 0 && IsFirst(p)) && Step(r, p).status != -1
    ensures r.Live? && !IsFirst(p)
  {
  }

  // the transfer t began with the latest first record
  ghost predicate Begun(ps: seq<Packet>, t: seq<Packet>) {
    t != [] && exists f: nat :: LatestFirst(ps, f) && ps[f] == t[0]
  }

  lemma BegunNow(ps: seq<Packet>, p: Packet)
    requires p.word >= 0 && IsFirst(p)
    ensures Begun(ps + [p], [p])
  {
    hide IsFirst;
    assert LatestFirst(ps + [p], |ps|);
  }

  lemma BegunStill(ps: seq<Packet>, p: Packet, t: seq<Packet>)
    requires Begun(ps, t) && !(p.word >= 0 && IsFirst(p))
    ensures Begun(ps + [p], t) && Begun(ps + [p], t + [p])
  {
    hide IsFirst;
    var f: nat :| LatestFirst(ps, f) && ps[f] == t[0];
    assert LatestFirst(ps + [p], f);
  }

  lemma {:induction false} TransferHolds(ps: seq<Packet>)
    requires Packets(ps)
    ensures Holds(After(Idle, ps), Transfer(ps))
    ensures After(Idle, ps).Live? ==> Begun(ps, Transfer(ps))
  {
    if ps == [] {
    } else {
      hide Step, After, Transfer, Holds, Begun, IsFirst;
      var n := |ps| - 1;
      var pre, last := ps[..n], ps[n];
      assert last in ps && ps == pre + [last];
      TransferHolds(pre);
      TransferSnoc(pre, last);
      var r, t := After(Idle, pre), Transfer(pre);
      if last.word >= 0 && IsFirst(last) {
        Start(r, last);
        BegunNow(pre, last);
      } else {
        if r.Live? { BegunStill(pre, last, t); }
        if Step(r, last).status != -1 {
          NotStarting(r, last);
          Continue(r, t, last);
        }
      }
    }
  }

  /**
   Over every run of records, the receiver reports a complete string only when the
   buffer holds, in order, the chunks of the transfer begun by the latest first record,
   with exactly the announced length.
   */
  lemma CompleteMeansInOrder(ps: seq<Packet>)
    requires Packets(ps) && ps != []
    requires Status(Idle, ps, |ps| - 1) == 1
    ensures InOrder(Transfer(ps)) && Transfer(ps)[|Transfer(ps)| - 1] == ps[|ps| - 1]
    ensures After(Idle, ps).data == Chunks(Transfer(ps))
    ensures |After(Idle, ps).data| == RemLen(Transfer(ps)[0])
    ensures exists f: nat :: LatestFirst(ps, f) && ps[f] == Transfer(ps)[0]
  {
    TransferHolds(ps);
  }

  // ---- receiver on its buffer -----------------------------------------------

  class StrBuf {
    var buf: array?<char>
    var endp: nat      // offset of the write position from buf
    var size: int
    var awaited: int

    ghost predicate Valid()
      reads this
    {
      buf != null ==> 0 <= awaited && endp + awaited + 1 == size == buf.Length <= 0x10000
    }

    ghost function Contents(): Receiver
      requires Valid()
      reads this, buf
    {
      if buf == null then Idle else Live(buf[..endp], size, awaited)
    }

    constructor ()
      ensures Valid() && Contents() == Idle
    {
      buf, endp, size, awaited := null, 0, 0, 0;
    }

    // memcpy(endp, chunk, len)
    method CopyIn(chunk: string, len: nat)
      requires buf != null && endp + len <= buf.Length && len <= |chunk|
      modifies buf
      ensures buf[..endp + len] == old(buf[..endp]) + chunk[..len]
    {
      for i := 0 to len
        invariant buf[..endp] == old(buf[..endp]) && buf[endp..endp + i] == chunk[..i]
      {
        buf[endp + i] := chunk[i];
      }
      assert buf[..endp + len] == buf[..endp] + buf[endp..endp + len];
    }

    /** Every access stays inside the buffer; a completed string is NUL-terminated. */
    method Recv(rr: Packet) returns (status: int)
      requires Valid() && rr.Valid()
      modifies this, buf
      ensures Valid() && (buf != old(buf) ==> fresh(buf))
      ensures Contents() == Step(old(Contents()), rr).state
      ensures status == Step(old(Contents()), rr).status
      ensures status == 1 ==> buf != null && buf[endp] == '\0'
    {
      hide IsFirst;
      if rr.word < 0 { return -1; }
      var len := RemLen(rr);
      if IsFirst(rr) {
        awaited := len;
        size := awaited + 1;
        buf := new char[size];
        endp := 0;
      }
      if size == 0 || buf == null { return -1; }
      if endp >= size { return -1; }
      if awaited > size { return -1; }
      if len != awaited { return -1; }
      if len > CHUNK { len := CHUNK; }
      CopyIn(rr.chunk, len);
      endp := endp + len;
      awaited := awaited - len;
      if awaited < 0 { return -1; }
      if awaited == 0 {
        buf[endp] := '\0';
        return 1;
      }
      return 0;
    }

    /** SET_NAME hands the buffer over to the client record. */
    method Take() returns (s: array?<char>)
      requires Valid()
      modifies this
      ensures Valid() && Contents() == Idle && s == old(buf)
    {
      s := buf;
      buf := null;
    }
  }
}
