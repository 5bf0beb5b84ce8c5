/**
 The daemon's global state: configuration, clients and devices. Requests change it in
 place; every change that concerns LEDs goes through cfg_changed, the client list or
 the opening of a device.
 */
module Daemon {
  import opened Basics
  import opened Config
  import opened Clients
  import opened Leds
  import opened Requests
  import opened ClientWalk
  import opened Rounds
  import Connections
  import StringTransfer

  // ---- the daemon ---------------------------------------------------------------------------

  class Daemon {
    var cfg: Cfg<int>
    var keys: seq<seq<int>>
    var prev: Cfg<int>
    var lastId: int
    const clients: ClientList
    const devices: Devices

    function ViewOf(c: Client): View
      reads this, c
    {
      View(cfg, keys, c.sens, c.evmask, c.name, c.strbuf)
    }

    ghost predicate Valid(c: Client)
      reads this, c
    {
      clients.devices == devices && ViewOf(c).Valid()
    }

    /** Between top-level steps: no unprocessed change, and every LED as the policy says. */
    ghost predicate Steady()
      reads this, devices, clients`nodes
    {
      && clients.devices == devices
      && WatchedOf(prev) == WatchedOf(cfg)
      && Shows(devices.devs, cfg.led, clients.nodes != [])
    }

    // read_cfg and the copy to prev_cfg at startup
    constructor (cfg: Cfg<int>, keys: seq<seq<int>>)
      ensures Steady() && clients.Linked() && clients.nodes == [] && devices.devs == []
      ensures this.cfg == cfg && this.keys == keys && fresh(clients) && fresh(devices)
    {
      this.cfg, this.keys, prev, lastId := cfg, keys, cfg, 0;
      var leds := new Devices();
      devices := leds;
      clients := new ClientList(leds);
    }

    // ---- cfg_changed ------------------------------------------------------------------------

    // tell the clients about a device: the events are left out, the iterator is not
    method Broadcast()
      requires clients.Linked()
      modifies clients`iter
      ensures clients.iter == At(clients.nodes, 0)
    {
      var first := clients.FirstClient();
    }

    method RelightDevices()
      requires clients.Linked()
      modifies devices, clients`iter
      ensures devices.devs == Relit(old(devices.devs), WantLit(cfg.led, clients.nodes != []))
      ensures clients.iter ==
                if cfg.led == LED_AUTO && AnyOpen(old(devices.devs)) then At(clients.nodes, 0) else old(clients.iter)
    {
      var i := 0;
      while i < |devices.devs|
        invariant 0 <= i <= |devices.devs| == |old(devices.devs)|
        invariant clients.iter == if cfg.led == LED_AUTO && exists k :: 0 <= k < i && old(devices.devs)[k].open
                                  then At(clients.nodes, 0) else old(clients.iter)
        invariant forall k :: 0 <= k < i ==>
                    devices.devs[k] == Relit(old(devices.devs), WantLit(cfg.led, clients.nodes != []))[k]
        invariant forall k :: i <= k < |devices.devs| ==> devices.devs[k] == old(devices.devs)[k]
      {
        var dev := devices.devs[i];
        if dev.open {
          var on := cfg.led == LED_ON;
          if !on && cfg.led == LED_AUTO {
            var first := clients.FirstClient();
            on := first != null;
          }
          devices.devs := devices.devs[i := Switched(dev, on)];
        }
        i := i + 1;
      }
    }

    // remove the device of the old serial path, and announce it
    method DropSerial(path: string)
      requires clients.Linked()
      modifies devices, clients`iter
      ensures devices.devs == NotAt(old(devices.devs), path)
      ensures clients.iter == if InUse(old(devices.devs), path) then At(clients.nodes, 0) else old(clients.iter)
    {
      var i := 0;
      var kept := [];
      ghost var all := devices.devs;
      while i < |devices.devs|
        invariant 0 <= i <= |all| && devices.devs == all && kept == NotAt(all[..i], path)
        invariant clients.iter == if InUse(all[..i], path) then At(clients.nodes, 0) else old(clients.iter)
      {
        assert all[..i + 1] == all[..i] + [all[i]];
        if devices.devs[i].path != path {
          kept := kept + [devices.devs[i]];
        } else {
          Broadcast();
        }
        i := i + 1;
      }
      assert all[..i] == all;
      devices.devs := kept;
    }

    // a serial device that cannot be opened is removed again, which is announced like an opened one
    method InitSerial(op: Opening)
      requires clients.Linked()
      modifies devices, this`lastId, clients`iter
      ensures devices.devs == WithSerial(old(devices.devs), cfg.serial, op, old(lastId))
      ensures lastId == if Tries(old(devices.devs), cfg.serial, op) then (old(lastId) + 1) % 0x1_0000 else old(lastId)
      ensures clients.iter ==
                if Tries(old(devices.devs), cfg.serial, op) then At(clients.nodes, 0) else old(clients.iter)
    {
      if cfg.serial != "" {
        var used := exists d :: d in devices.devs && d.path == cfg.serial;
        if !used && !op.Absent? {
          if op.Opened? {
            devices.devs := [Dev(lastId, cfg.serial, true, false, false)] + devices.devs;
          }
          lastId := (lastId + 1) % 0x1_0000;
          Broadcast();
        }
      }
    }

    // the serial device of the old path goes, the one of the new path is opened
    method ReplaceSerial(path: string, op: Opening)
      requires clients.Linked() && clients.devices == devices
      modifies devices, this`lastId, clients`iter
      ensures devices.devs == WithSerial(NotAt(old(devices.devs), path), cfg.serial, op, old(lastId))
      ensures lastId ==
              if Tries(NotAt(old(devices.devs), path), cfg.serial, op) then (old(lastId) + 1) % 0x1_0000
              else old(lastId)
      ensures clients.iter == if InUse(old(devices.devs), path) || Tries(NotAt(old(devices.devs), path), cfg.serial, op)
                              then At(clients.nodes, 0) else old(clients.iter)
    {
      hide NotAt, WithSerial, Tries, InUse;
      DropSerial(path);
      InitSerial(op);
    }

    // the devices, the ids and the iterator are what a change of the watched settings makes of them
    ghost predicate Followed(devs: seq<Dev>, id: int, was: Watched, iter: Client?, op: Opening)
      reads this, devices, clients`nodes, clients`iter
    {
      var now := WatchedOf(cfg);
      && devices.devs == Reconfigured(devs, was, now, clients.nodes != [], op, id)
      && lastId == NextId(devs, was, now, op, id)
      && clients.iter == if Restarts(devs, was, now, op) then At(clients.nodes, 0) else iter
    }

    // nothing watched changed
    lemma Unmoved(op: Opening)
      ensures Followed(devices.devs, lastId, WatchedOf(cfg), clients.iter, op)
    {
    }

    /** cfg_changed: the devices and the shared iterator afterwards; `op` is what opening the serial device meets. */
    method CfgChanged(op: Opening)
      requires clients.Linked() && clients.devices == devices
      modifies this`prev, this`lastId, devices, clients`iter
      ensures prev == cfg && Followed(old(devices.devs), old(lastId), old(WatchedOf(prev)), old(clients.iter), op)
      ensures old(Shows(devices.devs, prev.led, clients.nodes != [])) ==> Steady()
    {
      hide Relit, NotAt, Shows, WithSerial, Tries, InUse, AnyOpen, Reconfigured, NextId, Restarts, ClientList.Linked;
      ghost var was, now, anyone := WatchedOf(prev), WatchedOf(cfg), clients.nodes != [];
      if old(Shows(devices.devs, prev.led, clients.nodes != [])) {
        ReconfiguredShows(devices.devs, was, now, anyone, op, lastId);
      }
      ghost var devs, id := devices.devs, lastId;
      if cfg.led != prev.led {
        RelightDevices();
      }
      LedsThenSerial(devs, was, now, anyone, op, id, devices.devs);
      if cfg.serial != prev.serial {
        ReplaceSerial(prev.serial, op);
      }
      prev := cfg;
    }

    // ---- other top-level steps -----------------------------------------------------------------

    /** A connection is accepted. */
    method Accept(sock: int) returns (c: Client)
      requires clients.Linked() && Steady()
      modifies clients`head, clients`nodes, devices
      ensures clients.Linked() && Steady() && clients.nodes == [c] + old(clients.nodes)
    {
      c := clients.AddClient(Unix, sock, cfg.led);
    }

    /** A client is disconnected. */
    method Disconnect(c: Client)
      requires clients.Linked() && Steady()
      modifies clients`head, clients`nodes, (set n | n in clients.nodes)`next, devices
      ensures clients.Linked() && Steady() && clients.nodes == Without(old(clients.nodes), c)
    {
      clients.RemoveClient(c, cfg.led);
    }

    // default_cfg
    method DefaultConfig()
      modifies this`cfg, this`keys
      ensures cfg == DefaultCfg(Connections.FLOAT_ONE) && keys == Fill(MAX_BUTTONS, []) && cfg.led == LED_ON
    {
      cfg, keys := DefaultCfg(Connections.FLOAT_ONE), Fill(MAX_BUTTONS, []);
    }

    method ReadConfig(env: Env)
      modifies this`cfg, this`keys
      ensures env.file.None? ==> cfg.led == LED_ON
      ensures (cfg, keys) ==
              match env.file
              case Some(f) => f
              case None => (DefaultCfg(Connections.FLOAT_ONE), Fill(MAX_BUTTONS, []))
    {
      // read_cfg starts from the defaults, also when it then fails
      DefaultConfig();
      if env.file.Some? {
        cfg, keys := env.file.value.0, env.file.value.1;
      }
    }

    /** SIGHUP: the file is read again. */
    method Reload(env: Env, op: Opening)
      requires clients.Linked() && Steady()
      modifies this, devices, clients`iter
      ensures Steady() && prev == cfg
      ensures Followed(old(devices.devs), old(lastId), old(WatchedOf(cfg)), old(clients.iter), op)
      ensures env.file.Some? ==> (cfg, keys) == env.file.value
      ensures env.file.None? ==> cfg == DefaultCfg(Connections.FLOAT_ONE) && keys == Fill(MAX_BUTTONS, [])
    {
      ReadConfig(env);
      CfgChanged(op);
    }

    /** A USB device is opened: its LED is switched to what the policy asks for. */
    method OpenUsb(path: string, hasLed: bool)
      requires clients.Linked() && Steady()
      modifies this`lastId, devices, clients`iter
      ensures Steady() && |devices.devs| == |old(devices.devs)| + 1 && devices.devs[1..] == old(devices.devs)
      ensures var d := devices.devs[0]; d.path == path && d.open && d.hasLed == hasLed
      ensures clients.iter == At(clients.nodes, 0)
    {
      hide Shows;
      var dev := Dev(lastId, path, true, hasLed, false);
      lastId := (lastId + 1) % 0x1_0000;
      var on := cfg.led == LED_ON;
      if !on && cfg.led == LED_AUTO {
        var first := clients.FirstClient();
        on := first != null;
      }
      if on {
        dev := Switched(dev, true);
      } else {
        // some devices only turn their LED off after it was turned on
        dev := Switched(dev, true);
        dev := Switched(dev, false);
      }
      ShowsNew(dev, devices.devs, cfg.led, clients.nodes != []);
      devices.devs := [dev] + devices.devs;
      Broadcast();
    }

    /** A device is removed, and announced. */
    method RemoveDevice(i: nat)
      requires clients.Linked() && Steady() && i < |devices.devs|
      modifies devices, clients`iter
      ensures Steady() && devices.devs == old(devices.devs)[..i] + old(devices.devs)[i + 1..]
      ensures clients.iter == At(clients.nodes, 0)
    {
      devices.devs := devices.devs[..i] + devices.devs[i + 1..];
      Broadcast();
    }

    // ---- requests -------------------------------------------------------------------------------

    method RecvText(c: Client, r: Req, op: Opening) returns (reply: Reply)
      requires r.Valid() && r.Text? && Valid(c) && clients.Linked() && Steady()
      modifies this, c`name, c`strbuf, devices, clients`iter
      ensures var what :=
                if r.ty == REQ_SET_NAME then ClientName
                else if r.ty == REQ_SCFG_SERDEV then SerialDev
                else SocketPath;
              ViewOf(c) == TextStep(old(ViewOf(c)), what, r.packet)
      ensures keys == old(keys) && reply == NoReply && Steady()
      ensures Followed(old(devices.devs), old(lastId), old(WatchedOf(cfg)), old(clients.iter), op)
    {
      hide StringTransfer.Step, CString, PathOf, Shows, Followed;
      reply := NoReply;
      Unmoved(op);
      var o := StringTransfer.Step(c.strbuf, r.packet);
      c.strbuf := o.state;
      if o.status == 1 {
        if r.ty == REQ_SET_NAME {
          c.name := CString(o.state.data);
          c.strbuf := StringTransfer.Idle;
        } else if r.ty == REQ_SCFG_SERDEV {
          cfg := cfg.(serial := PathOf(o.state.data));
          CfgChanged(op);
        } else {
          cfg := cfg.(sockpath := PathOf(o.state.data));
          CfgChanged(op);
        }
      }
    }

    // sendresp
    method Respond(data: seq<int>, status: int) returns (reply: Reply)
      requires |data| == 7
      ensures reply == Record(data[6 := status])
    {
      reply := Record(data[6 := status]);
    }

    // a set request for all six axes, or none
    method SetAxisSens(data: seq<int>) returns (reply: Reply)
      requires |data| == 7 && cfg.Shaped()
      modifies this`cfg
      ensures if forall i :: 0 <= i < 6 ==> Finite(data[i])
              then cfg == old(cfg).(sensTrans := data[..3], sensRot := data[3..6]) && reply == Record(data[6 := 0])
              else cfg == old(cfg) && reply == Record(data[6 := -1])
    {
      hide Finite;
      var i := 0;
      while i < 6
        invariant 0 <= i <= 6 && cfg == old(cfg)
        invariant forall k :: 0 <= k < i ==> Finite(data[k])
      {
        if !Finite(data[i]) {
          reply := Respond(data, -1);
          return;
        }
        i := i + 1;
      }
      i := 0;
      while i < 3
        invariant 0 <= i <= 3 && cfg == old(cfg).(sensTrans := cfg.sensTrans, sensRot := cfg.sensRot)
        invariant |cfg.sensTrans| == 3 && |cfg.sensRot| == 3
        invariant forall k :: 0 <= k < i ==> cfg.sensTrans[k] == data[k] && cfg.sensRot[k] == data[k + 3]
      {
        cfg := cfg.(sensTrans := cfg.sensTrans[i := data[i]], sensRot := cfg.sensRot[i := data[i + 3]]);
        i := i + 1;
      }
      assert cfg.sensTrans == data[..3] && cfg.sensRot == data[3..6];
      reply := Respond(data, 0);
    }

    method GetAxisSens(data: seq<int>) returns (reply: Reply)
      requires |data| == 7 && cfg.Shaped()
      ensures reply == Record(cfg.sensTrans + cfg.sensRot + [0])
    {
      var d := data;
      var i := 0;
      while i < 3
        invariant 0 <= i <= 3 && |d| == 7
        invariant forall k :: 0 <= k < i ==> d[k] == cfg.sensTrans[k] && d[k + 3] == cfg.sensRot[k]
      {
        d := d[i := cfg.sensTrans[i]][i + 3 := cfg.sensRot[i]];
        i := i + 1;
      }
      reply := Respond(d, 0);
      assert d[6 := 0] == cfg.sensTrans + cfg.sensRot + [0];
    }

    method SetInvert(data: seq<int>) returns (reply: Reply)
      requires |data| == 7 && cfg.Shaped()
      modifies this`cfg
      ensures |cfg.invert| == 6 && cfg == old(cfg).(invert := cfg.invert)
      ensures forall i :: 0 <= i < 6 ==> cfg.invert[i] == (data[i] != 0)
      ensures reply == Record(data[6 := 0])
    {
      var i := 0;
      while i < 6
        invariant 0 <= i <= 6 && |cfg.invert| == 6 && cfg == old(cfg).(invert := cfg.invert)
        invariant forall k :: 0 <= k < i ==> cfg.invert[k] == (data[k] != 0)
      {
        cfg := cfg.(invert := cfg.invert[i := data[i] != 0]);
        i := i + 1;
      }
      reply := Respond(data, 0);
    }

    method GetInvert(data: seq<int>) returns (reply: Reply)
      requires |data| == 7 && cfg.Shaped()
      ensures reply.Record? && |reply.data| == 7 && reply.data[6] == 0
      ensures forall i :: 0 <= i < 6 ==> reply.data[i] == Bit(cfg.invert[i])
    {
      var d := data;
      var i := 0;
      while i < 6
        invariant 0 <= i <= 6 && |d| == 7
        invariant forall k :: 0 <= k < i ==> d[k] == Bit(cfg.invert[k])
      {
        d := d[i := Bit(cfg.invert[i])];
        i := i + 1;
      }
      reply := Respond(d, 0);
    }

    method QueryDevice(ty: int, data: seq<int>, dev: Option<DevInfo>) returns (reply: Reply)
      requires |data| == 7 && REQ_DEV_NAME <= ty <= REQ_DEV_TYPE
      ensures QueryReply(Plain(ty, data), reply, dev, MeansFirst(ty, data).property)
    {
      hide StringTransfer.Carries;
      if dev.None? {
        reply := Respond(data, -1);
        return;
      }
      var d := dev.value;
      if ty == REQ_DEV_NAME {
        var ps := StringTransfer.SendStr(d.name);
        reply := Packets(ps);
      } else if ty == REQ_DEV_PATH {
        var ps := StringTransfer.SendStr(d.path);
        reply := Packets(ps);
      } else if ty == REQ_DEV_NAXES {
        reply := Respond(data[0 := d.naxes], 0);
      } else if ty == REQ_DEV_NBUTTONS {
        reply := Respond(data[0 := d.nbuttons], 0);
      } else if ty == REQ_DEV_USBID {
        if d.vendor != 0 && d.product != 0 {
          reply := Respond(data[0 := d.vendor][1 := d.product], 0);
        } else {
          reply := Respond(data, -1);
        }
      } else {
        reply := Respond(data[0 := d.ty], 0);
      }
    }

    method HandleDeadzone(c: Client, ty: int, data: seq<int>, env: Env) returns (reply: Reply)
      requires |data| == 7 && (ty == REQ_SCFG_DEADZONE || ty == REQ_GCFG_DEADZONE) && Valid(c) && Steady()
      modifies this`cfg
      ensures Handled(old(ViewOf(c)), env, Plain(ty, data), ViewOf(c), reply) && Steady()
    {
      hide Wrote, Shows, GetReply, QueryReply, TextStep, MeansButtons, MeansLast;
      ghost var v := ViewOf(c);
      if !AxisOk(data[0]) {
        reply := Respond(data, -1);
        return;
      }
      if ty == REQ_SCFG_DEADZONE {
        WrotePut(v, env.names, Cell.Dead(data[0]), data[1]);
        cfg := cfg.(dead := cfg.dead[data[0] := data[1]]);
        reply := Respond(data, 0);
      } else {
        reply := Respond(data[1 := cfg.dead[data[0]]], 0);
        Got(v, Plain(ty, data), reply, 1, Cell.Dead(data[0]));
      }
    }

    method HandleAxes(c: Client, ty: int, data: seq<int>, env: Env) returns (reply: Reply)
      requires |data| == 7 && REQ_SCFG_SENS_AXIS <= ty < 0x3008 && !IsText(ty) && Valid(c) && Steady()
      modifies this`cfg
      ensures Handled(old(ViewOf(c)), env, Plain(ty, data), ViewOf(c), reply) && Steady()
    {
      hide Finite, Wrote, Shows, GetReply, QueryReply, TextStep, MeansButtons, MeansLast, SensWrites, SensSlots,
        InvertWrites, InvertSlots;
      ghost var v := ViewOf(c);
      if ty == REQ_SCFG_SENS_AXIS {
        WroteAxisSens(v, env.names, data);
        reply := SetAxisSens(data);
      } else if ty == REQ_GCFG_SENS_AXIS {
        reply := GetAxisSens(data);
        GotAxisSens(v, Plain(ty, data), reply);
      } else if ty == REQ_SCFG_DEADZONE || ty == REQ_GCFG_DEADZONE {
        reply := HandleDeadzone(c, ty, data, env);
      } else if ty == REQ_SCFG_INVERT {
        reply := SetInvert(data);
        WroteInvert(v, env.names, data, cfg.invert);
      } else {
        reply := GetInvert(data);
        GotInvert(v, Plain(ty, data), reply);
      }
    }

    /** Client settings, device queries and the first configuration settings. */
    method HandleFirst(c: Client, ty: int, data: seq<int>, env: Env) returns (reply: Reply)
      requires |data| == 7 && ty < 0x3008 && !IsText(ty) && Valid(c) && Steady()
      modifies this`cfg, c`sens, c`evmask
      ensures Handled(old(ViewOf(c)), env, Plain(ty, data), ViewOf(c), reply) && Steady()
    {
      hide Finite, Wrote, Shows, GetReply, QueryReply;
      ghost var v := ViewOf(c);
      if ty == REQ_SET_SENS {
        if Finite(data[0]) {
          WrotePut(v, env.names, ClientSens, data[0]);
          c.sens := data[0];
          reply := Respond(data, 0);
        } else {
          reply := Respond(data, -1);
        }
      } else if ty == REQ_GET_SENS {
        reply := Respond(data[0 := c.sens], 0);
        Got(v, Plain(ty, data), reply, 0, ClientSens);
      } else if ty == REQ_SET_EVMASK {
        WrotePut(v, env.names, EventMask, data[0]);
        c.evmask := data[0];
        reply := Respond(data, 0);
      } else if ty == REQ_GET_EVMASK {
        reply := Respond(data[0 := c.evmask], 0);
        Got(v, Plain(ty, data), reply, 0, EventMask);
      } else if REQ_DEV_NAME <= ty <= REQ_DEV_TYPE {
        reply := QueryDevice(ty, data, env.dev);
      } else if ty == REQ_SCFG_SENS {
        if Finite(data[0]) {
          WrotePut(v, env.names, Sens, data[0]);
          cfg := cfg.(sensitivity := data[0]);
          reply := Respond(data, 0);
        } else {
          reply := Respond(data, -1);
        }
      } else if ty == REQ_GCFG_SENS {
        reply := Respond(data[0 := cfg.sensitivity], 0);
        Got(v, Plain(ty, data), reply, 0, Sens);
      } else if REQ_SCFG_SENS_AXIS <= ty {
        reply := HandleAxes(c, ty, data, env);
      } else {
        reply := Respond(data, -1);
      }
    }

    method HandleKeys(c: Client, ty: int, data: seq<int>, env: Env) returns (reply: Reply)
      requires |data| == 7 && (ty == REQ_SCFG_KBMAP || ty == REQ_GCFG_KBMAP) && ButtonOk(data[0])
      requires Valid(c) && Steady()
      modifies this`cfg, this`keys
      ensures Handled(old(ViewOf(c)), env, Plain(ty, data), ViewOf(c), reply) && Steady()
    {
      hide Wrote, Shows, GetReply;
      ghost var v := ViewOf(c);
      var idx := data[0];
      if ty == REQ_SCFG_KBMAP {
        if data[1] > 0 && data[1] !in env.names {
          reply := Respond(data, -1);
          return;
        }
        WrotePut(v, env.names, KeyMap(idx), data[1]);
        keys := keys[idx := if data[1] > 0 then [data[1]] else []];
        cfg := cfg.(kbmapStr := cfg.kbmapStr[idx := if data[1] > 0 then env.names[data[1]] else ""]);
        reply := Respond(data, 0);
      } else {
        reply := Respond(data[1 := if keys[idx] != [] then keys[idx][0] else 0], 0);
        GotKey(v, Plain(ty, data), reply, idx);
      }
    }

    /** Axis, button and key mappings. */
    method HandleButtons(c: Client, ty: int, data: seq<int>, env: Env) returns (reply: Reply)
      requires |data| == 7 && 0x3008 <= ty < 0x3010 && Valid(c) && Steady()
      modifies this`cfg, this`keys
      ensures Handled(old(ViewOf(c)), env, Plain(ty, data), ViewOf(c), reply) && Steady()
    {
      hide Wrote, Shows, GetReply, QueryReply, TextStep, MeansFirst, MeansLast;
      ghost var v := ViewOf(c);
      var idx := data[0];
      if ty == REQ_SCFG_AXISMAP {
        if !AxisOk(idx) || data[1] < -1 || data[1] >= 6 {
          reply := Respond(data, -1);
          return;
        }
        WrotePut(v, env.names, AxisMap(idx), data[1]);
        cfg := cfg.(mapAxis := cfg.mapAxis[idx := data[1]]);
        reply := Respond(data, 0);
      } else if ty == REQ_GCFG_AXISMAP {
        if !AxisOk(idx) {
          reply := Respond(data, -1);
          return;
        }
        reply := Respond(data[1 := cfg.mapAxis[idx]], 0);
        Got(v, Plain(ty, data), reply, 1, AxisMap(idx));
      } else if !ButtonOk(idx) {
        reply := Respond(data, -1);
      } else if ty == REQ_SCFG_BNMAP {
        if !ButtonOk(data[1]) {
          reply := Respond(data, -1);
          return;
        }
        WrotePut(v, env.names, BnMap(idx), data[1]);
        cfg := cfg.(mapButton := cfg.mapButton[idx := data[1]]);
        reply := Respond(data, 0);
      } else if ty == REQ_GCFG_BNMAP {
        reply := Respond(data[1 := cfg.mapButton[idx]], 0);
        Got(v, Plain(ty, data), reply, 1, BnMap(idx));
      } else if ty == REQ_SCFG_BNACTION {
        if data[1] < 0 || data[1] >= MAX_BNACT {
          reply := Respond(data, -1);
          return;
        }
        WrotePut(v, env.names, BnAction(idx), data[1]);
        cfg := cfg.(bnact := cfg.bnact[idx := data[1]]);
        reply := Respond(data, 0);
      } else if ty == REQ_GCFG_BNACTION {
        reply := Respond(data[1 := cfg.bnact[idx]], 0);
        Got(v, Plain(ty, data), reply, 1, BnAction(idx));
      } else {
        reply := HandleKeys(c, ty, data, env);
      }
    }

    method HandleLed(c: Client, data: seq<int>, env: Env, op: Opening) returns (reply: Reply)
      requires |data| == 7 && Valid(c) && clients.Linked() && Steady()
      modifies this, devices, clients`iter
      ensures Handled(old(ViewOf(c)), env, Plain(REQ_SCFG_LED, data), ViewOf(c), reply) && Steady()
      ensures Followed(old(devices.devs), old(lastId), old(WatchedOf(cfg)), old(clients.iter), op)
    {
      hide Wrote, Shows, GetReply, Followed;
      Unmoved(op);
      if data[0] < 0 || data[0] >= 3 {
        reply := Respond(data, -1);
        return;
      }
      WrotePut(ViewOf(c), env.names, Led, data[0]);
      cfg := cfg.(led := data[0]);
      CfgChanged(op);
      reply := Respond(data, 0);
    }

    method HandleRestore(c: Client, data: seq<int>, env: Env, op: Opening) returns (reply: Reply)
      requires |data| == 7 && Valid(c) && env.Valid() && clients.Linked() && Steady()
      modifies this, devices, clients`iter
      ensures Handled(old(ViewOf(c)), env, Plain(REQ_CFG_RESTORE, data), ViewOf(c), reply) && Steady()
      ensures Followed(old(devices.devs), old(lastId), old(WatchedOf(cfg)), old(clients.iter), op)
    {
      hide Shows, MeansFirst, MeansButtons, Followed, DefaultCfg, Cfg.Shaped;
      ReadConfig(env);
      CfgChanged(op);
      reply := Respond(data, 0);
    }

    method HandleReset(c: Client, data: seq<int>, env: Env, op: Opening) returns (reply: Reply)
      requires |data| == 7 && Valid(c) && clients.Linked() && Steady()
      modifies this, devices, clients`iter
      ensures Handled(old(ViewOf(c)), env, Plain(REQ_CFG_RESET, data), ViewOf(c), reply) && Steady()
      ensures Followed(old(devices.devs), old(lastId), old(WatchedOf(cfg)), old(clients.iter), op)
    {
      hide Shows, GetReply, QueryReply, TextStep, MeansFirst, MeansButtons, Followed, DefaultCfg, Cfg.Shaped;
      DefaultConfig();
      CfgChanged(op);
      reply := Respond(data, 0);
    }

    method HandleWhole(c: Client, ty: int, data: seq<int>, env: Env, op: Opening) returns (reply: Reply)
      requires |data| == 7 && REQ_SCFG_GRAB < ty && !IsText(ty) && ty != REQ_GCFG_GRAB
      requires ty != REQ_SCFG_REPEAT && ty != REQ_GCFG_REPEAT
      requires Valid(c) && env.Valid() && clients.Linked() && Steady()
      modifies this, devices, clients`iter
      ensures Handled(old(ViewOf(c)), env, Plain(ty, data), ViewOf(c), reply) && Steady()
      ensures Followed(old(devices.devs), old(lastId), old(WatchedOf(cfg)), old(clients.iter), op)
    {
      hide Wrote, Shows, GetReply, QueryReply, TextStep, MeansFirst, MeansButtons, Followed, StringTransfer.Carries,
        DefaultCfg, Cfg.Shaped;
      Unmoved(op);
      if ty == REQ_GCFG_SERDEV {
        var ps := StringTransfer.SendStr(cfg.serial);
        reply := Packets(ps);
      } else if ty == REQ_GCFG_SOCKET {
        var ps := StringTransfer.SendStr(cfg.sockpath);
        reply := Packets(ps);
      } else if ty == REQ_CFG_SAVE {
        reply := Respond(data, env.saved);
      } else if ty == REQ_CFG_RESTORE {
        reply := HandleRestore(c, data, env, op);
      } else if ty == REQ_CFG_RESET {
        reply := HandleReset(c, data, env, op);
      } else {
        reply := Respond(data, -1);
      }
    }

    method HandleSwitches(c: Client, ty: int, data: seq<int>, env: Env) returns (reply: Reply)
      requires |data| == 7 && (REQ_SCFG_SWAPYZ <= ty <= REQ_GCFG_GRAB || ty == REQ_SCFG_REPEAT || ty == REQ_GCFG_REPEAT)
      requires ty != REQ_SCFG_LED && Valid(c) && Steady()
      modifies this`cfg
      ensures Handled(old(ViewOf(c)), env, Plain(ty, data), ViewOf(c), reply) && Steady()
    {
      hide Wrote, Shows, GetReply, QueryReply, TextStep, MeansFirst, MeansButtons, StringTransfer.Carries;
      ghost var v := ViewOf(c);
      if ty == REQ_SCFG_SWAPYZ {
        WrotePut(v, env.names, SwapYZ, Bit(data[0] != 0));
        cfg := cfg.(swapyz := if data[0] != 0 then 1 else 0);
        reply := Respond(data, 0);
      } else if ty == REQ_GCFG_SWAPYZ {
        reply := Respond(data[0 := cfg.swapyz], 0);
        Got(v, Plain(ty, data), reply, 0, SwapYZ);
      } else if ty == REQ_GCFG_LED {
        reply := Respond(data[0 := cfg.led], 0);
        Got(v, Plain(ty, data), reply, 0, Led);
      } else if ty == REQ_SCFG_GRAB {
        WrotePut(v, env.names, Grab, Bit(data[0] != 0));
        cfg := cfg.(grab := if data[0] != 0 then 1 else 0);
        reply := Respond(data, 0);
      } else if ty == REQ_GCFG_GRAB {
        reply := Respond(data[0 := cfg.grab], 0);
        Got(v, Plain(ty, data), reply, 0, Grab);
      } else if ty == REQ_SCFG_REPEAT {
        WrotePut(v, env.names, Repeat, data[0]);
        cfg := cfg.(repeat := data[0]);
        reply := Respond(data, 0);
      } else {
        reply := Respond(data[0 := cfg.repeat], 0);
        Got(v, Plain(ty, data), reply, 0, Repeat);
      }
    }

    /** The remaining settings, and saving, restoring and resetting the configuration. */
    method HandleLast(c: Client, ty: int, data: seq<int>, env: Env, op: Opening) returns (reply: Reply)
      requires |data| == 7 && 0x3010 <= ty && !IsText(ty) && Valid(c) && env.Valid() && clients.Linked() && Steady()
      modifies this, devices, clients`iter
      ensures Handled(old(ViewOf(c)), env, Plain(ty, data), ViewOf(c), reply) && Steady()
      ensures Followed(old(devices.devs), old(lastId), old(WatchedOf(cfg)), old(clients.iter), op)
    {
      hide Handled, Shows, Followed;
      if ty == REQ_SCFG_LED {
        reply := HandleLed(c, data, env, op);
      } else if ty <= REQ_GCFG_GRAB || ty == REQ_SCFG_REPEAT || ty == REQ_GCFG_REPEAT {
        reply := HandleSwitches(c, ty, data, env);
        Unmoved(op);
      } else {
        reply := HandleWhole(c, ty, data, env, op);
      }
    }

    /** handle_request: what the protocol table says, and the LEDs agree with the policy again. */
    method HandleRequest(c: Client, r: Req, env: Env, op: Opening) returns (reply: Reply)
      requires r.Valid() && env.Valid() && Valid(c) && clients.Linked() && Steady()
      modifies this, c`sens, c`evmask, c`name, c`strbuf, devices, clients`iter
      ensures Handled(old(ViewOf(c)), env, r, ViewOf(c), reply)
      ensures Steady() && Valid(c) && clients.Linked()
      ensures Followed(old(devices.devs), old(lastId), old(WatchedOf(cfg)), old(clients.iter), op)
    {
      hide Wrote, Shows, Value, TextStep, MeansFirst, MeansButtons, MeansLast, GetReply, QueryReply, Sends, Followed;
      match r
      case Text(ty, packet) =>
        var what :=
          if ty == REQ_SET_NAME then ClientName else if ty == REQ_SCFG_SERDEV then SerialDev else SocketPath;
        TextValid(ViewOf(c), what, packet);
        reply := RecvText(c, r, op);
      case Plain(ty, data) =>
        if ty < 0x3008 {
          reply := HandleFirst(c, ty, data, env);
          Unmoved(op);
        } else if ty < 0x3010 {
          reply := HandleButtons(c, ty, data, env);
          Unmoved(op);
        } else {
          reply := HandleLast(c, ty, data, env, op);
        }
    }

    // ---- a round of client reads -----------------------------------------------------------------

    ghost function Shared(): World
      reads this, devices
    {
      World(cfg, keys, devices.devs, lastId)
    }

    ghost predicate Ready()
      reads this, devices, clients`nodes
    {
      Steady() && cfg.Shaped() && |keys| == MAX_BUTTONS
    }

    /** One client of the round: its read, the request it completes if any, and what that does to the walk. */
    method ServeTurn(c: Client, t: Tick) returns (next: Client?, reply: Reply, ghost v: Visit)
      requires clients.Linked() && c in clients.nodes && (clients.iter != null ==> clients.iter in clients.nodes)
      requires c.Valid() && c.strbuf.Valid() && t.Valid() && Ready()
      modifies this, clients, (set n | n in clients.nodes)`next, devices
      modifies c`proto, c`sens, c`evmask, c`reqbytes, c`reqbuf, c`name, c`strbuf
      ensures clients.Linked() && Ready() && c.Valid() && c.strbuf.Valid()
      ensures VisitOk(v, t) && reply == v.reply && v.who == c
      ensures v.was == old(c.Snapshot()) && v.now == c.Snapshot() && v.before == old(Shared()) && v.after == Shared()
      ensures Walk(clients.nodes, next, clients.iter, Drops(c, t.inc) && next == c)
              == Step(Walk(old(clients.nodes), c, old(clients.iter), false), v.act)
    {
      hide Handled, Shows, Outcome, ClientList.Linked, Cfg.Shaped, Decode, Following, Without, Reconfigured, NextId,
        Restarts;
      ghost var was, before := c.Snapshot(), Shared();
      WholeRecord(c, c.State(), t.inc);
      if Drops(c, t.inc) { DropsSilent(c, c.State(), t.inc); }
      var out;
      next, out := clients.Turn(c, t.inc, cfg.led);
      reply := NoReply;
      Unmoved(t.op);
      if out.Request? {
        DecodeValid(out.record);
        reply := HandleRequest(c, Decode(out.record), t.env, t.op);
      }
      v := Visit(c, was, c.Snapshot(), out, before, Shared(), reply, Keep);
      v := v.(act := ActOf(v, t));
    }

    /** The round after the visits vs: the list and the iterator are where the walk has them. */
    ghost predicate InRound(all: seq<Client>, vs: seq<Visit>, script: seq<Tick>, m: map<Client, Account>, g: World,
                            citer: Client?, freed: bool)
      reads this, devices, clients, m.Keys
      reads (set n | n in clients.nodes)`next
    {
      var w := Walk(clients.nodes, citer, clients.iter, freed);
      && clients.Linked() && Ready() && |vs| <= |script|
      && (forall c :: c in clients.nodes ==> c in m)
      && w == After(Start(all), Acts(vs)) && Inside(w) && Whos(vs) == Visited(Start(all), Acts(vs))
      && RoundOk(vs, script, m, g, Shared()) && AccountsAfter(m, vs).Keys == m.Keys && Holds(AccountsAfter(m, vs))
    }

    method ServeNext(c: Client, ghost all: seq<Client>, ghost vs: seq<Visit>, script: seq<Tick>, k: nat,
                     ghost m: map<Client, Account>, ghost g: World)
        returns (next: Client?, reply: Reply, ghost v: Visit)
      requires InRound(all, vs, script, m, g, c, false) && |vs| == k < |script| && script[k].Valid()
      modifies this, clients, m.Keys, devices
      ensures InRound(all, vs + [v], script, m, g, next, Drops(c, script[k].inc) && next == c)
      ensures reply == v.reply && v.who == c
    {
      hide VisitOk, RoundOk, Ready, Holds, Step, After, Visited, AccountsAfter, ClientList.Linked;
      ghost var before := AccountsAfter(m, vs);
      HoldsSplit(before, c);
      ghost var w := Walk(clients.nodes, c, clients.iter, false);
      next, reply, v := ServeTurn(c, script[k]);
      assert Holds(before - {c});
      HoldsJoin(before, c, v.now);
      RoundNext(vs, v, script, m, g);
      WalkNext(all, vs, v);
      StepInside(w, v.act);
      AccountsKeys(m, vs + [v], script, g, Shared());
    }

    lemma EnterRound(script: seq<Tick>, m: map<Client, Account>)
      requires clients.Linked() && Ready() && m.Keys == (set n | n in clients.nodes) && Holds(m)
      requires clients.iter == At(clients.nodes, 0)
      ensures InRound(clients.nodes, [], script, m, Shared(), At(clients.nodes, 0), false) && RepliesOf([]) == []
    {
      hide Ready, Holds, ClientList.Linked;
      NoVisits(script, m, Shared());
    }

    // the client loop of handle_uevents
    method ServeClients(script: seq<Tick>, ghost m: map<Client, Account>)
        returns (replies: seq<(Client, Reply)>, ghost vs: seq<Visit>, finished: bool)
      requires clients.Linked() && Ready() && m.Keys == (set n | n in clients.nodes) && Holds(m)
      requires forall i :: 0 <= i < |script| ==> script[i].Valid()
      modifies this, clients, clients.nodes, devices
      ensures clients.Linked() && Ready() && |vs| <= |script|
      ensures RoundOk(vs, script, m, old(Shared()), Shared()) && replies == RepliesOf(vs)
      ensures AccountsAfter(m, vs).Keys == m.Keys && Holds(AccountsAfter(m, vs))
      ensures var w := After(Start(old(clients.nodes)), Acts(vs));
              && Whos(vs) == Visited(Start(old(clients.nodes)), Acts(vs))
              && clients.nodes == w.list && clients.iter == w.iter && finished == Finished(w)
              && (Alive(w) ==> |vs| == |script|)
    {
      hide RoundOk, Ready, Holds, After, Visited, AccountsAfter, ClientList.Linked, RepliesOf;
      ghost var all, g := clients.nodes, Shared();
      replies, vs := [], [];
      var k, freed := 0, false;
      var citer := clients.FirstClient();
      EnterRound(script, m);
      while citer != null && !freed && k < |script|
        invariant k == |vs| && InRound(all, vs, script, m, g, citer, freed)
        invariant replies == RepliesOf(vs)
        decreases |script| - k
      {
        var c: Client := citer;
        ghost var v;
        var reply;
        citer, reply, v := ServeNext(c, all, vs, script, k, m, g);
        freed := Drops(c, script[k].inc) && citer == c;
        RepliesNext(vs, v);
        if reply != NoReply {
          replies := replies + [(c, reply)];
        }
        k, vs := k + 1, vs + [v];
      }
      finished := citer == null && !freed;
    }

    // a client accepted in this round
    lemma Joined(c: Client, was: map<Client, Account>)
      requires c.Valid() && c.Snapshot() == NewAccount() && Holds(was) && c !in was
      ensures Holds(was[c := NewAccount()])
    {
      assert was - {c} == was;
      HoldsJoin(was, c, NewAccount());
    }

    /**
     handle_uevents: an accepted client goes to the head of the list. Each visit of the loop
     serves the client's read and handles the request it completes; who is visited when, and
     which list is left, is what the walk makes of the drops and restarts; a finished round
     has visited every client exactly once exactly if no visit before the last client
     restarted the iterator, and the list left is then the visited one without the dropped
     clients; and every LED agrees with the policy, also after restarts. The round stops
     early only where the code would visit a freed client.
     */
    method HandleUevents(accepted: seq<int>, script: seq<Tick>, ghost was: map<Client, Account>)
        returns (ghost all: seq<Client>, ghost m: map<Client, Account>, replies: seq<(Client, Reply)>,
                 ghost vs: seq<Visit>, finished: bool)
      requires clients.Linked() && Ready() && |accepted| <= 1
      requires was.Keys == (set n | n in clients.nodes) && Holds(was)
      requires forall i :: 0 <= i < |script| ==> script[i].Valid()
      modifies this, clients, clients.nodes, devices
      ensures clients.Linked() && Ready() && |vs| <= |script|
      ensures |all| == |accepted| + |old(clients.nodes)| && all[|accepted|..] == old(clients.nodes)
      ensures accepted != [] ==> fresh(all[0]) && all[0].sock == accepted[0]
      ensures m == if accepted == [] then was else was[all[0] := NewAccount()]
      ensures var first := accepted != [] && old(clients.nodes) == [] && old(cfg.led) == LED_AUTO;
              var lit := if first then AllSwitched(old(devices.devs), true) else old(devices.devs);
              RoundOk(vs, script, m, old(Shared()).(devs := lit), Shared())
      ensures AccountsAfter(m, vs).Keys == m.Keys && Holds(AccountsAfter(m, vs)) && replies == RepliesOf(vs)
      ensures var w := After(Start(all), Acts(vs));
              && Whos(vs) == Visited(Start(all), Acts(vs))
              && clients.nodes == w.list && clients.iter == w.iter && finished == Finished(w)
              && (Alive(w) ==> |vs| == |script|)
      ensures finished ==> (Whos(vs) == all <==> NoRestart(Acts(vs), all))
      ensures NoRestart(Acts(vs), all) && |script| >= |all| ==>
                finished && |vs| == |all| && clients.nodes == Left(all, Acts(vs), |all|)
    {
      hide RoundOk, RepliesOf, Shows, Holds, AccountsAfter, After, Visited, ClientList.Linked, NoRestart, Left;
      m := was;
      if accepted != [] {
        var c := clients.AddClient(Unix, accepted[0], cfg.led);
        m := was[c := NewAccount()];
        Joined(c, was);
      }
      all := clients.nodes;
      clients.Distinct();
      replies, vs, finished := ServeClients(script, m);
      if finished {
        VisitsOnceIff(all, Acts(vs));
      }
      if NoRestart(Acts(vs), all) && |script| >= |all| {
        InOrder(all, Acts(vs));
        assert all[..|all|] == all && all[|all|..] == [];
      }
    }
  }
}
