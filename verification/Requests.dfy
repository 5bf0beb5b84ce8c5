/**
 Client requests as a table: what each request of the protocol asks for, which setting
 it writes or reads, and what it replies. Settings are numbered cells; floating-point
 values pass through as their 32-bit patterns.
 */
module Requests {
  import opened Basics
  import opened Config
  import Connections
  import StringTransfer

  const REQ_SET_NAME := 0x1000
  const REQ_SET_SENS := 0x1001
  const REQ_GET_SENS := 0x1002
  const REQ_SET_EVMASK := 0x1003
  const REQ_GET_EVMASK := 0x1004
  const REQ_DEV_NAME := 0x2000
  const REQ_DEV_PATH := 0x2001
  const REQ_DEV_NAXES := 0x2002
  const REQ_DEV_NBUTTONS := 0x2003
  const REQ_DEV_USBID := 0x2004
  const REQ_DEV_TYPE := 0x2005
  const REQ_SCFG_SENS := 0x3000
  const REQ_GCFG_SENS := 0x3001
  const REQ_SCFG_SENS_AXIS := 0x3002
  const REQ_GCFG_SENS_AXIS := 0x3003
  const REQ_SCFG_DEADZONE := 0x3004
  const REQ_GCFG_DEADZONE := 0x3005
  const REQ_SCFG_INVERT := 0x3006
  const REQ_GCFG_INVERT := 0x3007
  const REQ_SCFG_AXISMAP := 0x3008
  const REQ_GCFG_AXISMAP := 0x3009
  const REQ_SCFG_BNMAP := 0x300a
  const REQ_GCFG_BNMAP := 0x300b
  const REQ_SCFG_BNACTION := 0x300c
  const REQ_GCFG_BNACTION := 0x300d
  const REQ_SCFG_KBMAP := 0x300e
  const REQ_GCFG_KBMAP := 0x300f
  const REQ_SCFG_SWAPYZ := 0x3010
  const REQ_GCFG_SWAPYZ := 0x3011
  const REQ_SCFG_LED := 0x3012
  const REQ_GCFG_LED := 0x3013
  const REQ_SCFG_GRAB := 0x3014
  const REQ_GCFG_GRAB := 0x3015
  const REQ_SCFG_SERDEV := 0x3016
  const REQ_GCFG_SERDEV := 0x3017
  const REQ_SCFG_REPEAT := 0x3018
  const REQ_GCFG_REPEAT := 0x3019
  const REQ_SCFG_SOCKET := 0x301a
  const REQ_GCFG_SOCKET := 0x301b
  const REQ_CFG_SAVE := 0x3ffe
  const REQ_CFG_RESTORE := 0x3fff
  const REQ_CFG_RESET := 0x4000

  const PATH_MAX := 4096

  // a request record, with the low 16 bits of its type: seven integers, or a string packet in the
  // requests that carry text
  datatype Req = Plain(ty: int, data: seq<int>) | Text(ty: int, packet: StringTransfer.Packet)
  {
    ghost predicate Valid() {
      match this
      case Plain(ty, data) => |data| == 7 && !IsText(ty)
      case Text(ty, packet) => packet.Valid() && IsText(ty)
    }
  }

  predicate IsText(ty: int) { ty == REQ_SET_NAME || ty == REQ_SCFG_SERDEV || ty == REQ_SCFG_SOCKET }

  datatype Reply = NoReply | Record(data: seq<int>) | Packets(packets: seq<StringTransfer.Packet>)

  // ---- settings ------------------------------------------------------------------------

  /** What one client can see: the configuration with the key codes of kbmap, and its own settings. */
  datatype View = View(cfg: Cfg<int>, keys: seq<seq<int>>, sens: int, evmask: int, name: string,
                       text: StringTransfer.Receiver)
  {
    ghost predicate Valid() { cfg.Shaped() && |keys| == MAX_BUTTONS && text.Valid() }
  }

  datatype Cell =
    | ClientSens | EventMask
    | Sens | AxisSens(i: int) | Dead(i: int) | Invert(i: int) | AxisMap(i: int)
    | BnMap(i: int) | BnAction(i: int) | KeyMap(i: int)
    | SwapYZ | Led | Grab | Repeat
  {
    predicate Ok() {
      match this
      case AxisSens(i) => 0 <= i < 6
      case Invert(i) => 0 <= i < 6
      case Dead(i) => 0 <= i < MAX_AXES
      case AxisMap(i) => 0 <= i < MAX_AXES
      case BnMap(i) => 0 <= i < MAX_BUTTONS
      case BnAction(i) => 0 <= i < MAX_BUTTONS
      case KeyMap(i) => 0 <= i < MAX_BUTTONS
      case _ => true
    }
  }

  function Bit(b: bool): int { if b then 1 else 0 }

  function Value(v: View, c: Cell): int
    requires v.cfg.Shaped() && |v.keys| == MAX_BUTTONS && c.Ok()
  {
    match c
    case ClientSens => v.sens
    case EventMask => v.evmask
    case Sens => v.cfg.sensitivity
    case AxisSens(i) => if i < 3 then v.cfg.sensTrans[i] else v.cfg.sensRot[i - 3]
    case Dead(i) => v.cfg.dead[i]
    case Invert(i) => Bit(v.cfg.invert[i])
    case AxisMap(i) => v.cfg.mapAxis[i]
    case BnMap(i) => v.cfg.mapButton[i]
    case BnAction(i) => v.cfg.bnact[i]
    case KeyMap(i) => if v.keys[i] == [] then 0 else v.keys[i][0]
    case SwapYZ => v.cfg.swapyz
    case Led => v.cfg.led
    case Grab => v.cfg.grab
    case Repeat => v.cfg.repeat
  }

  // ---- the request table ---------------------------------------------------------------

  datatype TextCell = ClientName | SerialDev | SocketPath
  datatype Property = DevName | DevPath | NumAxes | NumButtons | UsbId | DevType

  datatype Meaning =
    | Invalid
    | Set(writes: map<Cell, int>)
    | Get(slots: map<int, Cell>)
    | SetText(what: TextCell)
    | GetText(what: TextCell)
    | Query(property: Property)
    | Save | Restore | Reset

  predicate AxisOk(i: int) { 0 <= i < MAX_AXES }
  predicate ButtonOk(i: int) { 0 <= i < MAX_BUTTONS }
  predicate Finite(bits: int) { Connections.Finite(bits) }

  // X11 key codes and their names
  type KeyNames = map<int, string>

  // the requests over all six axes
  ghost function SensWrites(q: seq<int>): map<Cell, int>
    requires |q| >= 6
  {
    map i | 0 <= i < 6 :: AxisSens(i) := q[i]
  }

  ghost function SensSlots(): map<int, Cell> { map i | 0 <= i < 6 :: AxisSens(i) }

  ghost function InvertWrites(q: seq<int>): map<Cell, int>
    requires |q| >= 6
  {
    map i | 0 <= i < 6 :: Invert(i) := Bit(q[i] != 0)
  }

  ghost function InvertSlots(): map<int, Cell> { map i | 0 <= i < 6 :: Invert(i) }

  /** The protocol table. An invalid request is answered with status -1. */
  ghost function Means(names: KeyNames, r: Req): Meaning
    requires r.Valid()
  {
    if r.Text? then
      SetText(if r.ty == REQ_SET_NAME then ClientName else if r.ty == REQ_SCFG_SERDEV then SerialDev else SocketPath)
    else if r.ty < 0x3008 then MeansFirst(r.ty, r.data)
    else if r.ty < 0x3010 then MeansButtons(names, r.ty, r.data)
    else MeansLast(r.ty, r.data)
  }

  ghost function MeansFirst(ty: int, q: seq<int>): Meaning
    requires |q| == 7
  {
    if ty == REQ_SET_SENS then (if Finite(q[0]) then Set(map[ClientSens := q[0]]) else Invalid)
    else if ty == REQ_GET_SENS then Get(map[0 := ClientSens])
    else if ty == REQ_SET_EVMASK then Set(map[EventMask := q[0]])
    else if ty == REQ_GET_EVMASK then Get(map[0 := EventMask])
    else if ty == REQ_DEV_NAME then Query(DevName)
    else if ty == REQ_DEV_PATH then Query(DevPath)
    else if ty == REQ_DEV_NAXES then Query(NumAxes)
    else if ty == REQ_DEV_NBUTTONS then Query(NumButtons)
    else if ty == REQ_DEV_USBID then Query(UsbId)
    else if ty == REQ_DEV_TYPE then Query(DevType)
    else if ty == REQ_SCFG_SENS then (if Finite(q[0]) then Set(map[Sens := q[0]]) else Invalid)
    else if ty == REQ_GCFG_SENS then Get(map[0 := Sens])
    else if ty == REQ_SCFG_SENS_AXIS then
      // all six or none
      (if forall i :: 0 <= i < 6 ==> Finite(q[i]) then Set(SensWrites(q)) else Invalid)
    else if ty == REQ_GCFG_SENS_AXIS then Get(SensSlots())
    else if ty == REQ_SCFG_DEADZONE then (if AxisOk(q[0]) then Set(map[Dead(q[0]) := q[1]]) else Invalid)
    else if ty == REQ_GCFG_DEADZONE then (if AxisOk(q[0]) then Get(map[1 := Dead(q[0])]) else Invalid)
    else if ty == REQ_SCFG_INVERT then Set(InvertWrites(q))
    else if ty == REQ_GCFG_INVERT then Get(InvertSlots())
    else Invalid
  }

  ghost function MeansButtons(names: KeyNames, ty: int, q: seq<int>): Meaning
    requires |q| == 7
  {
    if ty == REQ_SCFG_AXISMAP then (if AxisOk(q[0]) && -1 <= q[1] < 6 then Set(map[AxisMap(q[0]) := q[1]]) else Invalid)
    else if ty == REQ_GCFG_AXISMAP then (if AxisOk(q[0]) then Get(map[1 := AxisMap(q[0])]) else Invalid)
    else if ty == REQ_SCFG_BNMAP
    then (if ButtonOk(q[0]) && ButtonOk(q[1]) then Set(map[BnMap(q[0]) := q[1]]) else Invalid)
    else if ty == REQ_GCFG_BNMAP then (if ButtonOk(q[0]) then Get(map[1 := BnMap(q[0])]) else Invalid)
    else if ty == REQ_SCFG_BNACTION then
      (if ButtonOk(q[0]) && 0 <= q[1] < MAX_BNACT then Set(map[BnAction(q[0]) := q[1]]) else Invalid)
    else if ty == REQ_GCFG_BNACTION then (if ButtonOk(q[0]) then Get(map[1 := BnAction(q[0])]) else Invalid)
    else if ty == REQ_SCFG_KBMAP then
      // a positive key code needs a name; anything else removes the mapping
      (if ButtonOk(q[0]) && (q[1] > 0 ==> q[1] in names)
       then Set(map[KeyMap(q[0]) := if q[1] > 0 then q[1] else 0])
       else Invalid)
    else if ty == REQ_GCFG_KBMAP then (if ButtonOk(q[0]) then Get(map[1 := KeyMap(q[0])]) else Invalid)
    else Invalid
  }

  ghost function MeansLast(ty: int, q: seq<int>): Meaning
    requires |q| == 7
  {
    if ty == REQ_SCFG_SWAPYZ then Set(map[SwapYZ := Bit(q[0] != 0)])
    else if ty == REQ_GCFG_SWAPYZ then Get(map[0 := SwapYZ])
    else if ty == REQ_SCFG_LED then (if 0 <= q[0] < 3 then Set(map[Led := q[0]]) else Invalid)
    else if ty == REQ_GCFG_LED then Get(map[0 := Led])
    else if ty == REQ_SCFG_GRAB then Set(map[Grab := Bit(q[0] != 0)])
    else if ty == REQ_GCFG_GRAB then Get(map[0 := Grab])
    else if ty == REQ_GCFG_SERDEV then GetText(SerialDev)
    else if ty == REQ_SCFG_REPEAT then Set(map[Repeat := q[0]])
    else if ty == REQ_GCFG_REPEAT then Get(map[0 := Repeat])
    else if ty == REQ_GCFG_SOCKET then GetText(SocketPath)
    else if ty == REQ_CFG_SAVE then Save
    else if ty == REQ_CFG_RESTORE then Restore
    else if ty == REQ_CFG_RESET then Reset
    else Invalid
  }

  // ---- one exchange ---------------------------------------------------------------------

  datatype DevInfo = DevInfo(name: string, path: string, naxes: int, nbuttons: int, vendor: int, product: int, ty: int)

  /**
   The world outside: the client's device, the key names, the file as read_cfg reads it (None: it
   fails), the result of saving.
   */
  datatype Env = Env(dev: Option<DevInfo>, names: KeyNames, file: Option<(Cfg<int>, seq<seq<int>>)>, saved: int)
  {
    predicate Valid() { file.Some? ==> file.value.0.Shaped() && |file.value.1| == MAX_BUTTONS }
  }

  // a C string ends at the first NUL
  function CString(s: string): string { if s == "" || s[0] == '\0' then "" else [s[0]] + CString(s[1..]) }

  // strncpy into a PATH_MAX buffer
  function PathOf(s: string): string { var t := CString(s); if |t| < PATH_MAX then t else t[..PATH_MAX - 1] }

  function DefaultView(v: View): View { v.(cfg := DefaultCfg(Connections.FLOAT_ONE), keys := Fill(MAX_BUTTONS, [])) }

  function RestoredView(v: View, env: Env): View {
    match env.file
    case None => DefaultView(v)
    case Some(f) => v.(cfg := f.0, keys := f.1)
  }

  /** Exactly the written cells have their new values; nothing else changes but the name of a written key. */
  ghost predicate Wrote(pre: View, post: View, names: KeyNames, writes: map<Cell, int>)
    requires pre.Valid() && post.Valid()
  {
    && (forall c: Cell :: c.Ok() ==> Value(post, c) == if c in writes then writes[c] else Value(pre, c))
    && (forall i :: 0 <= i < MAX_BUTTONS ==>
          if KeyMap(i) in writes then NamedKey(post, names, i)
          else post.keys[i] == pre.keys[i] && post.cfg.kbmapStr[i] == pre.cfg.kbmapStr[i])
    && SameRest(pre, post)
  }

  // one key with its name, or none
  predicate NamedKey(v: View, names: KeyNames, i: int)
    requires v.cfg.Shaped() && |v.keys| == MAX_BUTTONS && 0 <= i < MAX_BUTTONS
  {
    var k := Value(v, KeyMap(i));
    if k > 0 then v.keys[i] == [k] && k in names && v.cfg.kbmapStr[i] == names[k]
    else v.keys[i] == [] && v.cfg.kbmapStr[i] == ""
  }

  // the settings no request writes
  predicate SameRest(pre: View, post: View) {
    && post.cfg.mapHold == pre.cfg.mapHold && post.cfg.holdTimeout == pre.cfg.holdTimeout
    && post.cfg.serial == pre.cfg.serial && post.cfg.sockpath == pre.cfg.sockpath
    && post.cfg.devid == pre.cfg.devid && post.cfg.kbemuX11 == pre.cfg.kbemuX11
    && post.name == pre.name && post.text == pre.text
  }

  function TextOf(v: View, what: TextCell): string {
    match what
    case ClientName => v.name
    case SerialDev => v.cfg.serial
    case SocketPath => v.cfg.sockpath
  }

  function WithText(v: View, what: TextCell, s: string): View {
    match what
    case ClientName => v.(name := CString(s), text := StringTransfer.Idle)
    case SerialDev => v.(cfg := v.cfg.(serial := PathOf(s)))
    case SocketPath => v.(cfg := v.cfg.(sockpath := PathOf(s)))
  }

  // one more packet of a string
  ghost function TextStep(v: View, what: TextCell, p: StringTransfer.Packet): View
    requires p.Valid()
  {
    var o := StringTransfer.Step(v.text, p);
    if o.status == 1 then WithText(v.(text := o.state), what, o.state.data) else v.(text := o.state)
  }

  // the request's own record with a status
  predicate Status(r: Req, reply: Reply, status: int)
    requires r.Plain? && |r.data| == 7
  {
    reply == Record(r.data[6 := status])
  }

  predicate Answers(r: Req, reply: Reply, answer: map<int, int>)
    requires r.Plain? && |r.data| == 7
  {
    reply.Record? && |reply.data| == 7 && reply.data[6] == 0
    && forall i :: 0 <= i < 6 ==> reply.data[i] == if i in answer then answer[i] else r.data[i]
  }

  ghost predicate Sends(reply: Reply, s: string) { reply.Packets? && StringTransfer.Carries(reply.packets, s) }

  ghost predicate QueryReply(r: Req, reply: Reply, dev: Option<DevInfo>, what: Property)
    requires r.Plain? && |r.data| == 7
  {
    if dev == None || (what == UsbId && (dev.value.vendor == 0 || dev.value.product == 0)) then Status(r, reply, -1)
    else
      match what
      case DevName => Sends(reply, dev.value.name)
      case DevPath => Sends(reply, dev.value.path)
      case NumAxes => Answers(r, reply, map[0 := dev.value.naxes])
      case NumButtons => Answers(r, reply, map[0 := dev.value.nbuttons])
      case UsbId => Answers(r, reply, map[0 := dev.value.vendor, 1 := dev.value.product])
      case DevType => Answers(r, reply, map[0 := dev.value.ty])
  }

  ghost predicate SlotsOk(slots: map<int, Cell>) { forall i :: i in slots ==> 0 <= i < 6 && slots[i].Ok() }

  ghost predicate GetReply(v: View, r: Req, reply: Reply, slots: map<int, Cell>)
    requires v.Valid() && r.Plain? && |r.data| == 7
  {
    SlotsOk(slots) && Answers(r, reply, map i | i in slots && slots[i].Ok() :: Value(v, slots[i]))
  }

  /** The whole effect and the reply of one request. */
  ghost predicate Handled(pre: View, env: Env, r: Req, post: View, reply: Reply)
    requires pre.Valid() && r.Valid()
  {
    post.Valid() &&
    match Means(env.names, r)
    case Invalid => r.Plain? && post == pre && Status(r, reply, -1)
    case Set(writes) => r.Plain? && Wrote(pre, post, env.names, writes) && Status(r, reply, 0)
    case Get(slots) => r.Plain? && post == pre && GetReply(pre, r, reply, slots)
    case SetText(what) => r.Text? && post == TextStep(pre, what, r.packet) && reply == NoReply
    case GetText(what) => post == pre && Sends(reply, TextOf(pre, what))
    case Query(what) => r.Plain? && post == pre && QueryReply(r, reply, env.dev, what)
    case Save => r.Plain? && post == pre && Status(r, reply, env.saved)
    case Restore => r.Plain? && post == RestoredView(pre, env) && Status(r, reply, 0)
    case Reset => r.Plain? && post == DefaultView(pre) && Status(r, reply, 0)
  }

  // ---- runs ---------------------------------------------------------------------------------

  datatype Exchange = Exchange(pre: View, env: Env, req: Req, post: View, reply: Reply)

  ghost predicate Run(xs: seq<Exchange>) {
    && (forall x :: x in xs ==>
          x.pre.Valid() && x.env.Valid() && x.req.Valid() && Handled(x.pre, x.env, x.req, x.post, x.reply))
    && (forall k :: 0 < k < |xs| ==> xs[k].pre == xs[k - 1].post)
  }

  // the value of a cell after an exchange, from its value w before
  ghost function NextValue(x: Exchange, c: Cell, w: int): int
    requires x.pre.Valid() && x.env.Valid() && x.req.Valid() && c.Ok()
  {
    var m := Means(x.env.names, x.req);
    if m.Set? && c in m.writes then m.writes[c]
    else if m.Restore? then Value(RestoredView(x.pre, x.env), c)
    else if m.Reset? then Value(DefaultView(x.pre), c)
    else w
  }

  /** The value the latest accepted set, restore or reset of the first n exchanges gave the cell. */
  ghost function Latest(xs: seq<Exchange>, n: nat, c: Cell): int
    requires Run(xs) && xs != [] && n <= |xs| && c.Ok()
  {
    if n == 0 then Value(xs[0].pre, c)
    else
      assert xs[n - 1] in xs;
      NextValue(xs[n - 1], c, Latest(xs, n - 1, c))
  }

  lemma ValueNext(x: Exchange, c: Cell)
    requires x.pre.Valid() && x.env.Valid() && x.req.Valid() && Handled(x.pre, x.env, x.req, x.post, x.reply) && c.Ok()
    ensures Value(x.post, c) == NextValue(x, c, Value(x.pre, c))
  {
    hide Means, Value, Status, GetReply, QueryReply, Sends, NamedKey, SameRest, TextStep, RestoredView, DefaultView,
      Cell.Ok, View.Valid;
    var m := Means(x.env.names, x.req);
    if m.SetText? { TextKeepsCells(x.pre, m.what, x.req.packet, c); }
  }

  lemma {:induction false} LatestIs(xs: seq<Exchange>, n: nat, c: Cell)
    requires Run(xs) && xs != [] && n < |xs| && c.Ok()
    ensures xs[n] in xs && Value(xs[n].pre, c) == Latest(xs, n, c)
  {
    hide Handled, NextValue, Value, Cell.Ok;
    if n > 0 {
      LatestIs(xs, n - 1, c);
      assert xs[n - 1] in xs;
      ValueNext(xs[n - 1], c);
    }
  }

  lemma TextKeepsCells(v: View, what: TextCell, p: StringTransfer.Packet, c: Cell)
    requires v.Valid() && p.Valid() && c.Ok()
    ensures TextStep(v, what, p).cfg.Shaped() && |TextStep(v, what, p).keys| == MAX_BUTTONS
    ensures Value(TextStep(v, what, p), c) == Value(v, c)
  {
    hide StringTransfer.Step, CString, PathOf;
  }

  /**
   The settings behave as a map: in every run each get is answered with the values that
   the latest accepted sets, restores and resets gave the cells it asks for, and a
   rejected request changes nothing.
   */
  lemma GetReturnsLatest(xs: seq<Exchange>, k: nat)
    requires Run(xs) && k < |xs| && xs[k].req.Valid()
    ensures var m := Means(xs[k].env.names, xs[k].req);
            && (m.Get? ==>
                  xs[k].reply.Record? && |xs[k].reply.data| == 7 && xs[k].reply.data[6] == 0 && SlotsOk(m.slots))
            && (m.Get? ==> forall i :: i in m.slots ==> xs[k].reply.data[i] == Latest(xs, k, m.slots[i]))
            && (xs[k].reply.Record? && xs[k].reply.data[6] == -1 && m != Save ==> xs[k].post == xs[k].pre)
  {
    hide Means, Value, Latest, QueryReply, Sends, Wrote;
    var x := xs[k];
    assert x in xs;
    var m := Means(x.env.names, x.req);
    if m.Get? {
      forall i | i in m.slots ensures x.reply.data[i] == Latest(xs, k, m.slots[i]) {
        LatestIs(xs, k, m.slots[i]);
      }
    }
  }

  // ---- ranges ----------------------------------------------------------------------------

  ghost predicate CfgInRange(c: Cfg<int>)
    requires c.Shaped()
  {
    c.Sane() && 0 <= c.led < 3
  }

  ghost predicate InRange(v: View)
    requires v.cfg.Shaped()
  {
    CfgInRange(v.cfg)
  }

  /** Every request keeps button maps, actions, the LED setting and axis maps in range, if the file does. */
  lemma RangesKept(pre: View, env: Env, r: Req, post: View, reply: Reply)
    requires pre.Valid() && env.Valid() && r.Valid() && Handled(pre, env, r, post, reply)
    requires InRange(pre) && (env.file.Some? ==> CfgInRange(env.file.value.0))
    ensures InRange(post)
  {
    hide Means, Status, GetReply, QueryReply, Sends, TextStep, Wrote;
    var m := Means(env.names, r);
    if m.Set? {
      WritesInRange(env.names, r);
      CellsInRange(pre, post, env.names, m.writes);
    }
    if m.SetText? { TextKeepsRange(pre, m.what, r.packet); }
  }

  /** So does every run of requests: the ranges hold before and after each of them. */
  lemma {:induction false} RunRangesKept(xs: seq<Exchange>, k: nat)
    requires Run(xs) && k < |xs| && xs[0].pre.Valid() && InRange(xs[0].pre)
    requires forall x :: x in xs && x.env.Valid() && x.env.file.Some? ==> CfgInRange(x.env.file.value.0)
    ensures xs[k].pre.Valid() && xs[k].post.Valid() && InRange(xs[k].pre) && InRange(xs[k].post)
  {
    hide InRange, CfgInRange, Handled;
    assert xs[k] in xs;
    if k > 0 { RunRangesKept(xs, k - 1); }
    RangesKept(xs[k].pre, xs[k].env, xs[k].req, xs[k].post, xs[k].reply);
    PostValid(xs[k]);
  }

  lemma PostValid(x: Exchange)
    requires x.pre.Valid() && x.req.Valid() && Handled(x.pre, x.env, x.req, x.post, x.reply)
    ensures x.post.Valid()
  {
    hide Means, Wrote, GetReply, QueryReply, Sends, TextStep;
  }

  // the range of each cell
  predicate CellInRange(c: Cell, x: int) {
    match c
    case Led => 0 <= x < 3
    case BnMap(i) => 0 <= x < MAX_BUTTONS
    case BnAction(i) => 0 <= x < MAX_BNACT
    case AxisMap(i) => -1 <= x < 6 || x == i
    case _ => true
  }

  lemma WritesInRange(names: KeyNames, r: Req)
    requires r.Valid() && Means(names, r).Set?
    ensures forall c :: c in Means(names, r).writes ==> CellInRange(c, Means(names, r).writes[c])
  {
    hide Finite;
    if r.Plain? && r.ty < 0x3008 { FirstInRange(r.ty, r.data); }
  }

  lemma FirstInRange(ty: int, q: seq<int>)
    requires |q| == 7 && MeansFirst(ty, q).Set?
    ensures forall c :: c in MeansFirst(ty, q).writes ==> CellInRange(c, MeansFirst(ty, q).writes[c])
  {
    hide Finite;
  }

  lemma RangeOfCells(v: View)
    requires v.Valid() && v.cfg.holdTimeout >= 0
    requires forall i :: 0 <= i < MAX_BUTTONS ==> -1 <= v.cfg.mapHold[i] < MAX_BUTTONS
    ensures InRange(v) <==> forall c: Cell :: c.Ok() ==> CellInRange(c, Value(v, c))
  {
    if forall c: Cell :: c.Ok() ==> CellInRange(c, Value(v, c)) {
      assert CellInRange(Led, Value(v, Led));
      forall i | 0 <= i < MAX_BUTTONS ensures 0 <= v.cfg.mapButton[i] < MAX_BUTTONS && 0 <= v.cfg.bnact[i] < MAX_BNACT {
        assert CellInRange(BnMap(i), Value(v, BnMap(i))) && CellInRange(BnAction(i), Value(v, BnAction(i)));
      }
      forall i | 0 <= i < MAX_AXES ensures -1 <= v.cfg.mapAxis[i] < 6 || v.cfg.mapAxis[i] == i {
        assert CellInRange(AxisMap(i), Value(v, AxisMap(i)));
      }
    }
  }

  lemma CellsInRange(pre: View, post: View, names: KeyNames, writes: map<Cell, int>)
    requires pre.Valid() && post.Valid() && Wrote(pre, post, names, writes) && InRange(pre)
    requires forall c :: c in writes ==> CellInRange(c, writes[c])
    ensures InRange(post)
  {
    hide Value, CellInRange, NamedKey, Cell.Ok;
    RangeOfCells(pre);
    RangeOfCells(post);
  }

  lemma TextKeepsRange(v: View, what: TextCell, p: StringTransfer.Packet)
    requires v.Valid() && p.Valid() && InRange(v)
    ensures TextStep(v, what, p).cfg.Shaped() && InRange(TextStep(v, what, p))
  {
    hide StringTransfer.Step, CString, PathOf;
  }

  // ---- strings ------------------------------------------------------------------------------

  /** The exchanges send exactly the packets of s for one text setting. */
  ghost predicate SendsAll(xs: seq<Exchange>, what: TextCell, ps: seq<StringTransfer.Packet>) {
    |xs| == |ps| && forall k :: 0 <= k < |xs| ==>
      xs[k].req.Text? && xs[k].req.packet == ps[k] && xs[k].req.Valid()
      && Means(xs[k].env.names, xs[k].req) == SetText(what)
  }

  lemma TextUnfinished(x: Exchange, what: TextCell)
    requires x.pre.Valid() && x.req.Valid() && Handled(x.pre, x.env, x.req, x.post, x.reply)
    requires Means(x.env.names, x.req) == SetText(what)
    requires x.req.Text? && StringTransfer.Step(x.pre.text, x.req.packet).status != 1
    ensures x.post == x.pre.(text := StringTransfer.Step(x.pre.text, x.req.packet).state)
  {
    hide Means, StringTransfer.Step, WithText;
  }

  // after the first k packets of a string nothing but the receiver has changed
  lemma {:induction false} TextProgress(xs: seq<Exchange>, what: TextCell, s: string, ps: seq<StringTransfer.Packet>,
                                        k: nat)
    requires Run(xs) && SendsAll(xs, what, ps) && StringTransfer.Carries(ps, s) && |s| <= 0xffff
    requires StringTransfer.Packets(ps) && 0 < |xs| && k < |xs|
    ensures xs[k].pre == xs[0].pre.(text := StringTransfer.After(xs[0].pre.text, ps[..k]))
  {
    hide StringTransfer.Step, Means, StringTransfer.Carries, WithText, Handled, TextStep;
    var t := xs[0].pre.text;
    if k == 0 {
      assert ps[..0] == [];
    } else {
      TextProgress(xs, what, s, ps, k - 1);
      StringTransfer.RoundTrip(t, s, ps);
      assert xs[k - 1] in xs;
      assert ps[..k][..k - 1] == ps[..k - 1];
      assert StringTransfer.Status(t, ps, k - 1) == 0;
      TextUnfinished(xs[k - 1], what);
    }
  }

  /**
   A text setting sent in full, by any client and over any earlier transfer, ends up as
   the string sent, cut to what the field holds, and changes no other setting.
   */
  lemma TextArrives(xs: seq<Exchange>, what: TextCell, s: string, ps: seq<StringTransfer.Packet>)
    requires Run(xs) && SendsAll(xs, what, ps) && StringTransfer.Carries(ps, s) && |s| <= 0xffff
    requires StringTransfer.Packets(ps) && xs != [] && '\0' !in s
    ensures var last, first := xs[|xs| - 1].post, xs[0].pre;
            && last == WithText(first.(text := last.text), what, s).(text := last.text)
            && TextOf(last, what) == if what == ClientName || |s| < PATH_MAX then s else s[..PATH_MAX - 1]
  {
    hide StringTransfer.Step, Means, StringTransfer.Carries;
    var n := |xs| - 1;
    var t := xs[0].pre.text;
    TextProgress(xs, what, s, ps, n);
    StringTransfer.RoundTrip(t, s, ps);
    assert xs[n] in xs && ps[..|ps|] == ps && ps[..n + 1][..n] == ps[..n];
    assert StringTransfer.Status(t, ps, n) == 1;
    WholeString(s);
  }

  lemma WholeString(s: string)
    requires '\0' !in s
    ensures CString(s) == s
  {
    if s != "" {
      assert s[0] in s && forall x :: x in s[1..] ==> x in s;
      WholeString(s[1..]);
    }
  }

  // ---- writing one cell -------------------------------------------------------------------

  /** The settings after the assignment that belongs to a cell. */
  function Put(v: View, names: KeyNames, c: Cell, x: int): View
    requires v.cfg.Shaped() && |v.keys| == MAX_BUTTONS && c.Ok()
    requires c.KeyMap? && x > 0 ==> x in names
  {
    match c
    case ClientSens => v.(sens := x)
    case EventMask => v.(evmask := x)
    case Sens => v.(cfg := v.cfg.(sensitivity := x))
    case AxisSens(i) =>
      if i < 3 then v.(cfg := v.cfg.(sensTrans := v.cfg.sensTrans[i := x]))
      else v.(cfg := v.cfg.(sensRot := v.cfg.sensRot[i - 3 := x]))
    case Dead(i) => v.(cfg := v.cfg.(dead := v.cfg.dead[i := x]))
    case Invert(i) => v.(cfg := v.cfg.(invert := v.cfg.invert[i := x != 0]))
    case AxisMap(i) => v.(cfg := v.cfg.(mapAxis := v.cfg.mapAxis[i := x]))
    case BnMap(i) => v.(cfg := v.cfg.(mapButton := v.cfg.mapButton[i := x]))
    case BnAction(i) => v.(cfg := v.cfg.(bnact := v.cfg.bnact[i := x]))
    case KeyMap(i) =>
      v.(cfg := v.cfg.(kbmapStr := v.cfg.kbmapStr[i := if x > 0 then names[x] else ""]),
         keys := v.keys[i := if x > 0 then [x] else []])
    case SwapYZ => v.(cfg := v.cfg.(swapyz := x))
    case Led => v.(cfg := v.cfg.(led := x))
    case Grab => v.(cfg := v.cfg.(grab := x))
    case Repeat => v.(cfg := v.cfg.(repeat := x))
  }

  // what the cell then holds: truth values and absent keys are stored as 0 and 1
  function Stored(c: Cell, x: int): int {
    if c.Invert? then Bit(x != 0) else if c.KeyMap? then if x > 0 then x else 0 else x
  }

  /** The assignment writes its own cell and no other. */
  lemma WrotePut(v: View, names: KeyNames, c: Cell, x: int)
    requires v.Valid() && c.Ok() && (c.KeyMap? && x > 0 ==> x in names)
    ensures Wrote(v, Put(v, names, c, x), names, map[c := Stored(c, x)])
  {
  }

  lemma WroteAxisSens(v: View, names: KeyNames, q: seq<int>)
    requires v.Valid() && |q| >= 6
    ensures Wrote(v, v.(cfg := v.cfg.(sensTrans := q[..3], sensRot := q[3..6])), names, SensWrites(q))
  {
  }

  lemma WroteInvert(v: View, names: KeyNames, q: seq<int>, s: seq<bool>)
    requires v.Valid() && |q| == 7 && |s| == 6 && forall i :: 0 <= i < 6 ==> s[i] == (q[i] != 0)
    ensures Wrote(v, v.(cfg := v.cfg.(invert := s)), names, InvertWrites(q))
  {
  }

  // ---- replies to get requests ---------------------------------------------------------------

  lemma Got(v: View, r: Req, reply: Reply, slot: int, c: Cell)
    requires v.Valid() && r.Plain? && |r.data| == 7 && 0 <= slot < 6 && c.Ok()
    requires reply == Record(r.data[slot := Value(v, c)][6 := 0])
    ensures GetReply(v, r, reply, map[slot := c])
  {
  }

  lemma GotKey(v: View, r: Req, reply: Reply, i: int)
    requires v.Valid() && r.Plain? && |r.data| == 7 && ButtonOk(i)
    requires reply == Record(r.data[1 := if v.keys[i] != [] then v.keys[i][0] else 0][6 := 0])
    ensures GetReply(v, r, reply, map[1 := KeyMap(i)])
  {
    Got(v, r, reply, 1, KeyMap(i));
  }

  lemma GotAxisSens(v: View, r: Req, reply: Reply)
    requires v.Valid() && r.Plain? && |r.data| == 7
    requires reply == Record(v.cfg.sensTrans + v.cfg.sensRot + [0])
    ensures GetReply(v, r, reply, SensSlots())
  {
  }

  lemma GotInvert(v: View, r: Req, reply: Reply)
    requires v.Valid() && r.Plain? && |r.data| == 7
    requires reply.Record? && |reply.data| == 7 && reply.data[6] == 0
    requires forall i :: 0 <= i < 6 ==> reply.data[i] == Bit(v.cfg.invert[i])
    ensures GetReply(v, r, reply, InvertSlots())
  {
  }

  lemma TextValid(v: View, what: TextCell, p: StringTransfer.Packet)
    requires v.Valid() && p.Valid()
    ensures TextStep(v, what, p).Valid()
  {
    hide StringTransfer.Step, CString, PathOf;
  }
}
