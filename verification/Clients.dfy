/**
 The client list: nodes linked through `next`, newest first, walked by one shared
 iterator while the walk itself removes nodes.
 */
module Clients {
  import opened Config
  import opened Connections
  import opened Leds
  import StringTransfer

  datatype Kind = X11 | Unix

  /** All that the daemon keeps for a client besides its place in the list. */
  datatype Account = Account(conn: Conn, name: string, text: StringTransfer.Receiver)

  function NewAccount(): Account { Account(NewConn(), "", StringTransfer.Idle) }

  class Client {
    const kind: Kind
    const sock: int
    var proto: int
    var sens: int
    var evmask: int
    var reqbuf: seq<int>
    var reqbytes: int
    var name: string
    var strbuf: StringTransfer.Receiver
    var next: Client?

    predicate Valid()
      reads this`proto, this`sens, this`evmask, this`reqbytes, this`reqbuf
    {
      |reqbuf| == 64 && 0 <= reqbytes < RECORD && State().Valid()
    }

    function State(): Conn
      requires 0 <= reqbytes <= |reqbuf|
      reads this`proto, this`sens, this`evmask, this`reqbytes, this`reqbuf
    {
      Conn(proto, sens, evmask, reqbuf[..reqbytes])
    }

    function Snapshot(): Account
      requires 0 <= reqbytes <= |reqbuf|
      reads this`proto, this`sens, this`evmask, this`reqbytes, this`reqbuf, this`name, this`strbuf
    {
      Account(State(), name, strbuf)
    }

    constructor (kind: Kind, sock: int, next: Client?)
      ensures Valid() && State() == NewConn() && Snapshot() == NewAccount()
      ensures this.kind == kind && this.sock == sock && this.next == next
    {
      this.kind, this.sock, this.next := kind, sock, next;
      proto, sens, evmask, reqbytes := 0, FLOAT_ONE, EVMASK_MOTION_BUTTON, 0;
      reqbuf := Fill(64, 0);
      name, strbuf := "", StringTransfer.Idle;
    }

    /** One successful read of this client's socket. */
    method ServeRead(b: seq<int>) returns (out: Served)
      requires Valid() && Got(State(), b)
      modifies this`proto, this`sens, this`evmask, this`reqbytes, this`reqbuf
      ensures Valid() && (State(), out) == Serve(old(State()), b)
    {
      hide Finite;
      ServeValid(State(), b);
      if proto == 0 {
        var msg := Word(b);
        if msg / 256 == PROTO_TAG {
          proto := msg % 256;
          if proto > MAX_PROTO_VER {
            proto := MAX_PROTO_VER;
          }
          out := Reply(PROTO_TAG * 256 + proto);
          if proto > 0 {
            evmask := EVMASK_MOTION_BUTTON_DEV;
          }
        } else {
          if Finite(msg) {
            sens := msg;
          }
          out := Silence;
        }
      } else {
        out := Accumulate(b);
      }
    }

    // protocol version 1: collect request bytes
    method Accumulate(b: seq<int>) returns (out: Served)
      requires Valid() && Got(State(), b) && proto == 1
      modifies this`reqbytes, this`reqbuf
      ensures Valid() && (State(), out) == Serve(old(State()), b)
    {
      hide Finite, Word;
      assert |b| <= RECORD - reqbytes;
      var n := 0;
      while n < |b|
        invariant 0 <= n <= |b| && |reqbuf| == 64 && reqbytes == old(reqbytes)
        invariant reqbuf[..reqbytes + n] == old(reqbuf[..reqbytes]) + b[..n]
      {
        reqbuf := reqbuf[reqbytes + n := b[n]];
        assert reqbuf[..reqbytes + n + 1] == reqbuf[..reqbytes + n] + [b[n]];
        assert b[..n + 1] == b[..n] + [b[n]];
        n := n + 1;
      }
      reqbytes := reqbytes + n;
      assert b[..n] == b;
      if reqbytes >= RECORD {
        out := Request(reqbuf[..reqbytes]);
        reqbytes := 0;
      } else {
        out := Silence;
      }
    }
  }

  function Without<T(==)>(s: seq<T>, x: T): (r: seq<T>) {
    if s == [] then [] else (if s[0] == x then [] else [s[0]]) + Without(s[1..], x)
  }

  lemma WithoutAbsent<T>(s: seq<T>, x: T)
    requires x !in s
    ensures Without(s, x) == s
  {
    if s != [] {
      assert s[0] in s && forall y :: y in s[1..] ==> y in s;
      WithoutAbsent(s[1..], x);
    }
  }

  lemma WithoutLess<T>(s: seq<T>, x: T)
    ensures forall y :: y in Without(s, x) ==> y in s
  {
  }

  lemma WithoutAt<T>(s: seq<T>, k: nat)
    requires k < |s| && s[k] !in s[..k] && s[k] !in s[k + 1..]
    ensures Without(s, s[k]) == s[..k] + s[k + 1..]
  {
    WithoutSplit(s[..k], s[k], s[k + 1..]);
    assert s == s[..k] + [s[k]] + s[k + 1..];
  }

  lemma {:induction false} WithoutSplit<T>(pre: seq<T>, x: T, post: seq<T>)
    requires x !in pre && x !in post
    ensures Without(pre + [x] + post, x) == pre + post
  {
    var s := pre + [x] + post;
    if pre == [] {
      assert s[1..] == post;
      WithoutAbsent(post, x);
    } else {
      assert s[0] == pre[0] && s[1..] == pre[1..] + [x] + post;
      assert pre[0] in pre && forall y :: y in pre[1..] ==> y in pre;
      WithoutSplit(pre[1..], x, post);
    }
  }

  /**
   What a client's socket has for one visit: it is not ready, the read fails or finds
   the connection closed, or bytes; `stale` is what the message buffer of version 0 held before.
   */
  datatype Incoming = Idle | Failed | Data(bytes: seq<int>, stale: seq<int>)
  {
    predicate Valid() { Data? ==> bytes != [] && |stale| == 4 }
  }

  predicate Drops(c: Client, inc: Incoming) { c.kind == Unix && inc.Failed? }

  /** What read() puts into the buffer: no more than was asked for, and in version 0 over the old bytes. */
  function Received(s: Conn, inc: Incoming): (b: seq<int>)
    requires s.Valid() && inc.Data? && inc.Valid()
    ensures Got(s, b)
  {
    var n := if |inc.bytes| < Wanted(s) then |inc.bytes| else Wanted(s);
    if s.proto == 0 then inc.bytes[..n] + inc.stale[n..] else inc.bytes[..n]
  }

  /** The clients are in the given states. */
  ghost predicate Holds(m: map<Client, Account>)
    reads m.Keys`proto, m.Keys`sens, m.Keys`evmask, m.Keys`reqbytes, m.Keys`reqbuf, m.Keys`name, m.Keys`strbuf
  {
    forall c :: c in m ==> c.Valid() && c.strbuf.Valid() && c.Snapshot() == m[c]
  }

  // what one visit makes of a connection
  function Outcome(c: Client, s: Conn, inc: Incoming): (Conn, Served) {
    if c.kind == Unix && s.Valid() && inc.Data? && inc.Valid() then Serve(s, Received(s, inc)) else (s, Silence)
  }

  lemma DropsSilent(c: Client, s: Conn, inc: Incoming)
    requires Drops(c, inc)
    ensures Outcome(c, s, inc) == (s, Silence)
  {
  }

  lemma HoldsSplit(m: map<Client, Account>, c: Client)
    requires Holds(m) && c in m
    ensures Holds(m - {c}) && c.Valid() && c.strbuf.Valid() && c.Snapshot() == m[c]
  {
  }

  lemma HoldsJoin(m: map<Client, Account>, c: Client, a: Account)
    requires Holds(m - {c}) && c.Valid() && c.strbuf.Valid() && c.Snapshot() == a
    ensures Holds(m[c := a])
  {
    forall x | x in m[c := a] ensures x.Valid() && x.strbuf.Valid() && x.Snapshot() == m[c := a][x] {
      if x != c { assert x in m - {c}; }
    }
  }

  ghost predicate DistinctClients(cs: seq<Client>) { forall i, j :: 0 <= i < j < |cs| ==> cs[i] != cs[j] }

  // the client after x in the list
  function Following(l: seq<Client>, x: Client?): Client? {
    if l == [] || x == null then null else if l[0] == x then At(l, 1) else Following(l[1..], x)
  }

  lemma {:induction false} FollowingAt(l: seq<Client>, k: nat)
    requires DistinctClients(l) && k < |l|
    ensures Following(l, l[k]) == At(l, k + 1)
  {
    if k > 0 {
      assert l[0] != l[k] && l[1..][k - 1] == l[k];
      FollowingAt(l[1..], k - 1);
      assert At(l[1..], k) == At(l, k + 1);
    }
  }

  lemma NoneFollows(l: seq<Client>)
    ensures Following(l, null) == null
  {
  }

  function At(s: seq<Client>, i: int): Client? { if 0 <= i < |s| then s[i] else null }

  class ClientList {
    var head: Client?
    var iter: Client?
    ghost var nodes: seq<Client>
    const devices: Devices

    ghost predicate Linked()
      reads this`head, this`nodes, (set n | n in nodes)`next
    {
      && head == At(nodes, 0)
      && (forall i :: 0 <= i < |nodes| ==> nodes[i].next == At(nodes, i + 1))
      && (forall i, j :: 0 <= i < j < |nodes| ==> nodes[i] != nodes[j])
    }

    constructor (devices: Devices)
      ensures Linked() && nodes == [] && iter == null && this.devices == devices
    {
      head, iter, nodes := null, null, [];
      this.devices := devices;
    }

    method FirstClient() returns (c: Client?)
      requires Linked()
      modifies this`iter
      ensures c == iter == At(nodes, 0)
    {
      iter := head;
      c := iter;
    }

    method NextClient() returns (c: Client?)
      modifies this`iter
      ensures c == iter == if old(iter) == null then null else old(iter).next
    {
      if iter != null {
        iter := iter.next;
      }
      c := iter;
    }

    /** A new client becomes the head of the list; the first one turns LEDs on under the automatic policy. */
    method AddClient(kind: Kind, sock: int, led: int) returns (c: Client)
      requires Linked()
      modifies this`head, this`nodes, devices
      ensures Linked() && nodes == [c] + old(nodes) && fresh(c)
      ensures c.Valid() && c.Snapshot() == NewAccount() && c.kind == kind && c.sock == sock
      ensures devices.devs ==
              if old(nodes) == [] && led == LED_AUTO then AllSwitched(old(devices.devs), true)
              else old(devices.devs)
      ensures old(Shows(devices.devs, led, nodes != [])) ==> Shows(devices.devs, led, true)
    {
      if head == null && led == LED_AUTO {
        devices.SetDevicesLed(true);
      }
      c := new Client(kind, sock, head);
      head := c;
      nodes := [c] + nodes;
    }

    /** The client is unlinked, the others keep their order; after the last one the automatic policy turns LEDs off. */
    method RemoveClient(client: Client, led: int)
      requires Linked()
      modifies this`head, this`nodes, (set n | n in nodes)`next, devices
      ensures Linked() && nodes == Without(old(nodes), client)
      ensures devices.devs ==
              if old(nodes) != [] && nodes == [] && led == LED_AUTO then AllSwitched(old(devices.devs), false)
              else old(devices.devs)
      ensures old(Shows(devices.devs, led, nodes != [])) ==> Shows(devices.devs, led, nodes != [])
    {
      hide Without;
      var it := head;
      if it == null {
        WithoutAbsent(nodes, client);
        return;
      }
      if it == client {
        WithoutAt(nodes, 0);
        assert nodes[..0] == [];
        head := it.next;
        nodes := nodes[1..];
        it := head;
        WithoutAbsent(nodes, client);
        if it == null {
          if led == LED_AUTO {
            devices.SetDevicesLed(false);
          }
          return;
        }
      }
      UnlinkAfter(it, client);
    }

    // the loop of remove_client: unlink the client wherever it follows another node
    method UnlinkAfter(first: Client, client: Client)
      requires Linked() && first == head && first != client
      modifies this`nodes, (set n | n in nodes)`next
      ensures Linked() && nodes == Without(old(nodes), client) && nodes != []
    {
      hide Without;
      var it := first;
      ghost var k := 0;
      while it.next != null
        invariant 0 <= k < |nodes| && it == nodes[k] && client !in nodes[..k + 1]
        invariant Linked() && (nodes == old(nodes) || (nodes == Without(old(nodes), client) && client !in nodes))
        invariant forall n :: n in nodes ==> n in old(nodes)
        decreases |nodes| - k
      {
        if it.next == client {
          WithoutAt(nodes, k + 1);
          Unlink(it, k);
        } else {
          it := it.next;
          k := k + 1;
        }
      }
      WithoutAbsent(nodes, client);
    }

    method Unlink(it: Client, ghost k: nat)
      requires Linked() && k + 1 < |nodes| && it == nodes[k]
      modifies this`nodes, it`next
      ensures Linked() && nodes == old(nodes)[..k + 1] + old(nodes)[k + 2..] && nodes[k] == it
      ensures it.next == At(nodes, k + 1) && old(nodes)[k + 1] !in nodes
    {
      ghost var was := nodes;
      it.next := it.next.next;
      nodes := was[..k + 1] + was[k + 2..];
      forall i | 0 <= i < |nodes| ensures nodes[i].next == At(nodes, i + 1) {
        assert nodes[i] == if i <= k then was[i] else was[i + 1];
      }
    }

    /** What the walk does at one client: serve its read, or drop it when the read failed. */
    method Visit(c: Client, inc: Incoming, led: int) returns (out: Served)
      requires Linked() && c in nodes && c.Valid() && inc.Valid()
      modifies this`head, this`nodes, (set n | n in nodes)`next, devices
      modifies c`proto, c`sens, c`evmask, c`reqbytes, c`reqbuf
      ensures Linked() && nodes == if Drops(c, inc) then Without(old(nodes), c) else old(nodes)
      ensures c.Valid() && (c.State(), out) == Outcome(c, old(c.State()), inc)
      ensures devices.devs ==
              if Drops(c, inc) && nodes == [] && led == LED_AUTO then AllSwitched(old(devices.devs), false)
              else old(devices.devs)
      ensures old(Shows(devices.devs, led, nodes != [])) ==> Shows(devices.devs, led, nodes != [])
    {
      out := Silence;
      if c.kind == Unix && !inc.Idle? {
        if inc.Failed? {
          RemoveClient(c, led);
        } else {
          out := c.ServeRead(Received(c.State(), inc));
        }
      }
    }

    lemma Distinct()
      requires Linked()
      ensures DistinctClients(nodes)
    {
    }

    lemma NextIs(k: nat)
      requires Linked() && k < |nodes|
      ensures nodes[k].next == Following(nodes, nodes[k]) == At(nodes, k + 1)
    {
      FollowingAt(nodes, k);
    }

    /**
     One turn of the walk at client c: the shared iterator moves on from wherever it
     is before the client is served, because serving may drop the client.
     */
    method Turn(c: Client, inc: Incoming, led: int) returns (next: Client?, out: Served)
      requires Linked() && c in nodes && c.Valid() && inc.Valid() && (iter != null ==> iter in nodes)
      modifies this, (set n | n in nodes)`next, devices, c`proto, c`sens, c`evmask, c`reqbytes, c`reqbuf
      ensures Linked() && next == iter == Following(old(nodes), old(iter))
      ensures nodes == if Drops(c, inc) then Without(old(nodes), c) else old(nodes)
      ensures c.Valid() && (c.State(), out) == Outcome(c, old(c.State()), inc)
      ensures devices.devs ==
              if Drops(c, inc) && nodes == [] && led == LED_AUTO then AllSwitched(old(devices.devs), false)
              else old(devices.devs)
      ensures old(Shows(devices.devs, led, nodes != [])) ==> Shows(devices.devs, led, nodes != [])
    {
      hide Without, Serve, Shows, Outcome, Conn.Valid, Following;
      if iter != null {
        ghost var k :| 0 <= k < |nodes| && nodes[k] == iter;
        NextIs(k);
      } else {
        NoneFollows(nodes);
      }
      next := NextClient();
      out := Visit(c, inc, led);
    }
  }
}
