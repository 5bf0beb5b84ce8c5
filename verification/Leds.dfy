/**
 Devices as the LED policy and the serial setting see them, and what a configuration
 change does to them.
 */
module Leds {
  import opened Config

  // an entry of the device list; hasLed: the driver can switch its LED
  datatype Dev = Dev(id: int, path: string, open: bool, hasLed: bool, lit: bool)

  /** Whether LEDs should be lit. */
  predicate WantLit(led: int, anyone: bool) { led == LED_ON || (led == LED_AUTO && anyone) }

  /** Every LED that can be switched agrees with the policy; only open devices have one. */
  ghost predicate Shows(devs: seq<Dev>, led: int, anyone: bool) {
    forall i :: 0 <= i < |devs| && devs[i].hasLed ==> devs[i].open && devs[i].lit == WantLit(led, anyone)
  }

  lemma ShowsNew(d: Dev, devs: seq<Dev>, led: int, anyone: bool)
    requires Shows(devs, led, anyone) && (d.hasLed ==> d.open && d.lit == WantLit(led, anyone))
    ensures Shows([d] + devs, led, anyone)
  {
    hide WantLit;
  }

  // the driver's set_led, where there is one
  function Switched(d: Dev, on: bool): Dev { if d.hasLed then d.(lit := on) else d }

  function AllSwitched(devs: seq<Dev>, on: bool): (r: seq<Dev>)
    ensures |r| == |devs| && forall i :: 0 <= i < |r| ==> r[i] == Switched(devs[i], on)
  {
    seq(|devs|, i requires 0 <= i < |devs| => Switched(devs[i], on))
  }

  // ---- a configuration change ---------------------------------------------------------------

  /** The settings cfg_changed compares with their previous values. */
  datatype Watched = Watched(led: int, serial: string)

  function WatchedOf<F>(cfg: Cfg<F>): Watched { Watched(cfg.led, cfg.serial) }

  /** What opening the configured serial device meets: no character device, a failure, or a device. */
  datatype Opening = Absent | Refused | Opened

  predicate AnyOpen(devs: seq<Dev>) { exists d :: d in devs && d.open }

  function Relit(devs: seq<Dev>, on: bool): (r: seq<Dev>)
    ensures |r| == |devs|
    ensures forall i :: 0 <= i < |r| ==> r[i] == if devs[i].open then Switched(devs[i], on) else devs[i]
  {
    seq(|devs|, i requires 0 <= i < |devs| => if devs[i].open then Switched(devs[i], on) else devs[i])
  }

  function NotAt(devs: seq<Dev>, path: string): seq<Dev> {
    if devs == [] then []
    else NotAt(devs[..|devs| - 1], path) + if devs[|devs| - 1].path == path then [] else [devs[|devs| - 1]]
  }

  predicate InUse(devs: seq<Dev>, path: string) { exists d :: d in devs && d.path == path }

  // init_devices_serial tries to open the device
  predicate Tries(devs: seq<Dev>, path: string, op: Opening) { path != "" && !InUse(devs, path) && !op.Absent? }

  // serial devices have no LED
  function WithSerial(devs: seq<Dev>, path: string, op: Opening, id: int): seq<Dev> {
    if Tries(devs, path, op) && op.Opened? then [Dev(id, path, true, false, false)] + devs else devs
  }

  /** The devices after cfg_changed. */
  function Reconfigured(devs: seq<Dev>, was: Watched, now: Watched, anyone: bool, op: Opening, id: int): seq<Dev> {
    var lit := if now.led != was.led then Relit(devs, WantLit(now.led, anyone)) else devs;
    if now.serial != was.serial then WithSerial(NotAt(lit, was.serial), now.serial, op, id) else lit
  }

  // a device that is tried takes the next 16-bit id, also if it cannot be opened
  function NextId(devs: seq<Dev>, was: Watched, now: Watched, op: Opening, id: int): int {
    if now.serial != was.serial && Tries(NotAt(devs, was.serial), now.serial, op) then (id + 1) % 0x1_0000 else id
  }

  /**
   Exactly when cfg_changed restarts the shared client iterator: the LED setting becomes
   automatic and an open device is there to be switched, or the serial path changes and a
   device goes or one is tried, which is announced to the clients either way.
   */
  predicate Restarts(devs: seq<Dev>, was: Watched, now: Watched, op: Opening) {
    || (now.led != was.led && now.led == LED_AUTO && AnyOpen(devs))
    || (now.serial != was.serial && (InUse(devs, was.serial) || Tries(NotAt(devs, was.serial), now.serial, op)))
  }

  lemma NotAtShows(devs: seq<Dev>, path: string, led: int, anyone: bool)
    requires Shows(devs, led, anyone)
    ensures Shows(NotAt(devs, path), led, anyone)
  {
    if devs != [] { NotAtShows(devs[..|devs| - 1], path, led, anyone); }
  }

  /** cfg_changed brings the LEDs in line with the new setting, if they were with the old one. */
  lemma ReconfiguredShows(devs: seq<Dev>, was: Watched, now: Watched, anyone: bool, op: Opening, id: int)
    requires Shows(devs, was.led, anyone)
    ensures Shows(Reconfigured(devs, was, now, anyone, op, id), now.led, anyone)
  {
    var lit := if now.led != was.led then Relit(devs, WantLit(now.led, anyone)) else devs;
    assert Shows(lit, now.led, anyone);
    NotAtShows(lit, was.serial, now.led, anyone);
  }

  lemma NotAtPaths(devs: seq<Dev>, path: string, other: string)
    ensures InUse(NotAt(devs, path), other) <==> InUse(devs, other) && other != path
  {
    if devs != [] {
      var pre, d := devs[..|devs| - 1], devs[|devs| - 1];
      NotAtPaths(pre, path, other);
      assert devs == pre + [d];
    }
  }

  // switching LEDs moves no device
  lemma RelitPaths(devs: seq<Dev>, on: bool, path: string)
    ensures InUse(Relit(devs, on), path) <==> InUse(devs, path)
  {
    var r := Relit(devs, on);
    if InUse(devs, path) {
      var i :| 0 <= i < |devs| && devs[i].path == path;
      assert r[i] in r && r[i].path == path;
    }
    if InUse(r, path) {
      var i :| 0 <= i < |r| && r[i].path == path;
      assert devs[i] in devs && devs[i].path == path;
    }
  }

  // the serial part of a change does not depend on the LEDs
  lemma SerialPaths(devs: seq<Dev>, on: bool, was: string, now: string, op: Opening)
    ensures InUse(Relit(devs, on), was) <==> InUse(devs, was)
    ensures Tries(NotAt(Relit(devs, on), was), now, op) <==> Tries(NotAt(devs, was), now, op)
  {
    hide InUse, NotAt, Relit;
    RelitPaths(devs, on, was);
    RelitPaths(devs, on, now);
    NotAtPaths(devs, was, now);
    NotAtPaths(Relit(devs, on), was, now);
  }

  // cfg_changed looks at the LED setting first, and at the serial path with the LEDs switched
  lemma LedsThenSerial(devs: seq<Dev>, was: Watched, now: Watched, anyone: bool, op: Opening, id: int, lit: seq<Dev>)
    requires lit == if now.led != was.led then Relit(devs, WantLit(now.led, anyone)) else devs
    ensures Reconfigured(devs, was, now, anyone, op, id) ==
            if now.serial != was.serial then WithSerial(NotAt(lit, was.serial), now.serial, op, id) else lit
    ensures NextId(devs, was, now, op, id) ==
            if now.serial != was.serial && Tries(NotAt(lit, was.serial), now.serial, op)
            then (id + 1) % 0x1_0000
            else id
    ensures Restarts(devs, was, now, op) <==>
            || (now.led != was.led && now.led == LED_AUTO && AnyOpen(devs))
            || (now.serial != was.serial && (InUse(lit, was.serial) || Tries(NotAt(lit, was.serial), now.serial, op)))
  {
    hide Relit, NotAt, WithSerial, Tries, InUse, AnyOpen;
    SerialPaths(devs, WantLit(now.led, anyone), was.serial, now.serial, op);
  }

  class Devices {
    var devs: seq<Dev>

    constructor ()
      ensures devs == []
    {
      devs := [];
    }

    // set_devices_led
    method SetDevicesLed(on: bool)
      modifies this
      ensures devs == AllSwitched(old(devs), on)
    {
      var i := 0;
      while i < |devs|
        invariant 0 <= i <= |devs| == |old(devs)|
        invariant forall k :: 0 <= k < i ==> devs[k] == Switched(old(devs)[k], on)
        invariant forall k :: i <= k < |devs| ==> devs[k] == old(devs)[k]
      {
        devs := devs[i := Switched(devs[i], on)];
        i := i + 1;
      }
    }
  }
}
