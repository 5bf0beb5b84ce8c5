/**
 A round of client reads: what each visit of the client loop does to the client, to
 the shared settings and to the walk itself.
 */
module Rounds {
  import opened Config
  import opened Clients
  import opened ClientWalk
  import opened Leds
  import opened Requests
  import Connections
  import StringTransfer

  // ---- records ----------------------------------------------------------------------------

  function Byte(b: int): (r: int)
    ensures 0 <= r < 256
  {
    b % 256
  }

  // the 32-bit word of a record at a byte offset, unsigned and signed
  function UWord(b: seq<int>, at: nat): (w: int)
    requires at + 4 <= |b|
    ensures 0 <= w < 0x1_0000_0000
  {
    Byte(b[at]) + 256 * Byte(b[at + 1]) + 65536 * Byte(b[at + 2]) + 16777216 * Byte(b[at + 3])
  }

  function SWord(b: seq<int>, at: nat): (w: int)
    requires at + 4 <= |b|
    ensures -0x8000_0000 <= w < 0x8000_0000
  {
    var u := UWord(b, at);
    if u >= 0x8000_0000 then u - 0x1_0000_0000 else u
  }

  /** struct reqresp in 32 bytes: the type, then seven integers or 24 characters and one. */
  function Decode(b: seq<int>): Req
    requires |b| == Connections.RECORD
  {
    var ty := UWord(b, 0) % 0x1_0000;
    if IsText(ty)
    then Text(ty, StringTransfer.Packet(seq(24, i requires 0 <= i < 24 => Byte(b[4 + i]) as char), SWord(b, 28)))
    else Plain(ty, seq(7, i requires 0 <= i < 7 => SWord(b, 4 + 4 * i)))
  }

  lemma DecodeValid(b: seq<int>)
    requires |b| == Connections.RECORD
    ensures Decode(b).Valid()
  {
  }

  lemma WholeRecord(c: Client, s: Connections.Conn, inc: Incoming)
    requires s.Valid()
    ensures Outcome(c, s, inc).1.Request? ==> |Outcome(c, s, inc).1.record| == Connections.RECORD
  {
    hide Connections.Finite, Received;
  }

  // ---- visits -------------------------------------------------------------------------------

  /** What one visit meets: the client's socket, the world the request sees, the serial device it may open. */
  datatype Tick = Tick(inc: Incoming, env: Env, op: Opening)
  {
    predicate Valid() { inc.Valid() && env.Valid() }
  }

  /** What every client shares; lastId numbers the devices. */
  datatype World = World(cfg: Cfg<int>, keys: seq<seq<int>>, devs: seq<Dev>, lastId: int)

  datatype Visit = Visit(
    who: Client, was: Account, now: Account, out: Connections.Served,
    before: World, after: World, reply: Reply, act: Act)

  function ViewIn(w: World, conn: Connections.Conn, a: Account): View {
    View(w.cfg, w.keys, conn.sens, conn.evmask, a.name, a.text)
  }

  // what a visit does to the walk
  function ActOf(v: Visit, t: Tick): Act {
    if Drops(v.who, t.inc) then Drop
    else if Restarts(v.before.devs, WatchedOf(v.before.cfg), WatchedOf(v.after.cfg), t.op) then Restart
    else Keep
  }

  /** The watched settings after a request. */
  ghost function NewWatched(pre: View, env: Env, r: Req): Watched
    requires r.Valid()
  {
    match r
    case Text(ty, p) =>
      var o := StringTransfer.Step(pre.text, p);
      if ty == REQ_SCFG_SERDEV && o.status == 1 then Watched(pre.cfg.led, PathOf(o.state.data)) else WatchedOf(pre.cfg)
    case Plain(ty, q) =>
      if ty == REQ_SCFG_LED && 0 <= q[0] < 3 then Watched(q[0], pre.cfg.serial)
      else if ty == REQ_CFG_RESTORE && env.file.Some? then WatchedOf(env.file.value.0)
      else if ty == REQ_CFG_RESTORE || ty == REQ_CFG_RESET then Watched(LED_ON, "")
      else WatchedOf(pre.cfg)
  }

  // what the table says of the requests that reach a watched setting
  lemma MeansWatched(names: KeyNames, r: Req)
    requires r.Valid()
    ensures var m := Means(names, r);
            && (m.SetText? <==> r.Text?) && (r.Text? ==> (m.what == SerialDev <==> r.ty == REQ_SCFG_SERDEV))
            && (m.Restore? <==> r.ty == REQ_CFG_RESTORE) && (m.Reset? <==> r.ty == REQ_CFG_RESET)
            && (r.Plain? && r.ty == REQ_SCFG_LED && 0 <= r.data[0] < 3 ==> m == Set(map[Led := r.data[0]]))
            && (m.Set? && Led in m.writes ==> r.ty == REQ_SCFG_LED && 0 <= r.data[0] < 3)
  {
    hide Finite;
  }

  lemma WatchedAfter(pre: View, env: Env, r: Req, post: View, reply: Reply)
    requires pre.Valid() && r.Valid() && Handled(pre, env, r, post, reply)
    ensures WatchedOf(post.cfg) == NewWatched(pre, env, r)
  {
    hide StringTransfer.Step, PathOf, CString, GetReply, QueryReply, Sends, Means;
    MeansWatched(env.names, r);
    if Means(env.names, r).Set? {
      assert Value(post, Led) == post.cfg.led && Value(pre, Led) == pre.cfg.led;
    }
  }

  /**
   Which requests restart the walk: the LED request, when it makes the setting automatic
   and a device is open; the last packet of another serial path, restoring and resetting,
   when the device of the old path goes or one of the new path is tried; restoring also
   by the LED setting of the file; no other request.
   */
  lemma RequestRestarts(pre: View, env: Env, r: Req, post: View, reply: Reply, devs: seq<Dev>, op: Opening)
    requires pre.Valid() && r.Valid() && Handled(pre, env, r, post, reply)
    ensures var now := NewWatched(pre, env, r);
            var led := now.led != pre.cfg.led && now.led == LED_AUTO && AnyOpen(devs);
            var serial :=
              && now.serial != pre.cfg.serial
              && (InUse(devs, pre.cfg.serial) || Tries(NotAt(devs, pre.cfg.serial), now.serial, op));
            Restarts(devs, WatchedOf(pre.cfg), WatchedOf(post.cfg), op) <==>
              match r
              case Text(ty, p) => ty == REQ_SCFG_SERDEV && StringTransfer.Step(pre.text, p).status == 1 && serial
              case Plain(ty, q) =>
                if ty == REQ_SCFG_LED then q[0] == LED_AUTO && pre.cfg.led != LED_AUTO && AnyOpen(devs)
                else if ty == REQ_CFG_RESTORE then led || serial
                else ty == REQ_CFG_RESET && pre.cfg.serial != "" && InUse(devs, pre.cfg.serial)
  {
    hide Handled, StringTransfer.Step, PathOf, InUse, NotAt, AnyOpen;
    WatchedAfter(pre, env, r, post, reply);
  }

  // the devices after the visit; dropping the last client may switch their LEDs off
  ghost predicate DevsOk(v: Visit, t: Tick) {
    if v.act.Drop? then
      (v.after.devs == v.before.devs || v.after.devs == AllSwitched(v.before.devs, false))
      && v.after.lastId == v.before.lastId
    else
      var was, now := WatchedOf(v.before.cfg), WatchedOf(v.after.cfg);
      && v.after.devs == Reconfigured(v.before.devs, was, now, true, t.op, v.before.lastId)
      && v.after.lastId == NextId(v.before.devs, was, now, t.op, v.before.lastId)
  }

  /**
   A visit serves the client's read, handles exactly the request the read completes, and
   acts on the walk as ActOf says.
   */
  ghost predicate VisitOk(v: Visit, t: Tick) {
    var (s, out) := Outcome(v.who, v.was.conn, t.inc);
    var pre := ViewIn(v.before, s, v.was);
    var post := ViewIn(v.after, v.now.conn, v.now);
    && v.out == out && v.act == ActOf(v, t) && DevsOk(v, t)
    && v.now.conn == s.(sens := v.now.conn.sens, evmask := v.now.conn.evmask)
    && if out.Request? then
         |out.record| == Connections.RECORD && pre.Valid() && Decode(out.record).Valid()
         && Handled(pre, t.env, Decode(out.record), post, v.reply)
       else post == pre && v.reply == NoReply
  }

  // ---- rounds --------------------------------------------------------------------------------

  function Acts(vs: seq<Visit>): (a: seq<Act>)
    ensures |a| == |vs| && forall i :: 0 <= i < |a| ==> a[i] == vs[i].act
  {
    seq(|vs|, i requires 0 <= i < |vs| => vs[i].act)
  }

  function Whos(vs: seq<Visit>): (cs: seq<Client>)
    ensures |cs| == |vs| && forall i :: 0 <= i < |cs| ==> cs[i] == vs[i].who
  {
    seq(|vs|, i requires 0 <= i < |vs| => vs[i].who)
  }

  /** The clients' states after the visits. */
  function AccountsAfter(m: map<Client, Account>, vs: seq<Visit>): map<Client, Account> {
    if vs == [] then m
    else AccountsAfter(m, vs[..|vs| - 1])[vs[|vs| - 1].who := vs[|vs| - 1].now]
  }

  /** The visits of a round, each starting from the shared settings and the client state the ones before left. */
  ghost predicate RoundOk(vs: seq<Visit>, ts: seq<Tick>, m: map<Client, Account>, g: World, h: World)
    requires |vs| <= |ts|
  {
    if vs == [] then g == h
    else
      var n := |vs| - 1;
      var m' := AccountsAfter(m, vs[..n]);
      && VisitOk(vs[n], ts[n]) && vs[n].after == h
      && vs[n].who in m' && vs[n].was == m'[vs[n].who]
      && RoundOk(vs[..n], ts, m, g, vs[n].before)
  }

  function RepliesOf(vs: seq<Visit>): seq<(Client, Reply)> {
    if vs == [] then []
    else
      var n := |vs| - 1;
      RepliesOf(vs[..n]) + if vs[n].reply == NoReply then [] else [(vs[n].who, vs[n].reply)]
  }

  lemma RoundNext(vs: seq<Visit>, v: Visit, ts: seq<Tick>, m: map<Client, Account>, g: World)
    requires |vs| < |ts| && RoundOk(vs, ts, m, g, v.before) && VisitOk(v, ts[|vs|])
    requires v.who in AccountsAfter(m, vs) && v.was == AccountsAfter(m, vs)[v.who]
    ensures RoundOk(vs + [v], ts, m, g, v.after)
    ensures AccountsAfter(m, vs + [v]) == AccountsAfter(m, vs)[v.who := v.now]
  {
    hide VisitOk;
    assert (vs + [v])[..|vs|] == vs;
  }

  lemma RepliesNext(vs: seq<Visit>, v: Visit)
    ensures RepliesOf(vs + [v]) == RepliesOf(vs) + if v.reply == NoReply then [] else [(v.who, v.reply)]
  {
    assert (vs + [v])[..|vs|] == vs;
  }

  lemma AccountsKeys(m: map<Client, Account>, vs: seq<Visit>, ts: seq<Tick>, g: World, h: World)
    requires |vs| <= |ts| && RoundOk(vs, ts, m, g, h)
    ensures AccountsAfter(m, vs).Keys == m.Keys
  {
    hide VisitOk;
    if vs != [] {
      var n := |vs| - 1;
      AccountsKeys(m, vs[..n], ts, g, vs[n].before);
      assert vs[n].who in AccountsAfter(m, vs[..n]).Keys;
    }
  }

  lemma NoVisits(ts: seq<Tick>, m: map<Client, Account>, g: World)
    ensures RoundOk([], ts, m, g, g) && AccountsAfter(m, []) == m && RepliesOf([]) == []
    ensures Acts([]) == [] && Whos([]) == []
  {
  }

  // one more visit of the walk
  lemma WalkNext(all: seq<Client>, vs: seq<Visit>, v: Visit)
    requires var w := After(Start(all), Acts(vs)); Alive(w) && v.who == w.citer
    requires Whos(vs) == Visited(Start(all), Acts(vs))
    ensures After(Start(all), Acts(vs + [v])) == Step(After(Start(all), Acts(vs)), v.act)
    ensures Whos(vs + [v]) == Visited(Start(all), Acts(vs + [v]))
  {
    hide Step;
    var a := Acts(vs + [v]);
    assert a[..|vs|] == Acts(vs) && a[|vs|] == v.act;
    assert Whos(vs + [v]) == Whos(vs) + [v.who];
  }
}
