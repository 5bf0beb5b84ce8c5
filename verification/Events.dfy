/**
 The event pipeline: device inputs become motion and button events. Motion is
 coalesced until a flush or a button, and buttons with a hold mapping are decided
 by deadlines. Every step is a function of the pipeline state, its input and the
 time read from the clock.
 */
module Events {
  import opened Basics
  import opened Config
  import opened Inputs

  // ---- time --------------------------------------------------------------------

  datatype Tv = Tv(sec: int, usec: int)

  // the value of a deadline slot that is not set
  const NEVER := Tv(0, 0)

  predicate Normalised(t: Tv) { 0 <= t.usec < 1_000_000 }

  function Micros(t: Tv): int { t.sec * 1_000_000 + t.usec }

  // TIMERCMP(a, <=, b) and TIMERCMP(a, <, b)
  predicate AtMost(a: Tv, b: Tv) { if a.sec == b.sec then a.usec <= b.usec else a.sec <= b.sec }

  predicate Before(a: Tv, b: Tv) { if a.sec == b.sec then a.usec < b.usec else a.sec < b.sec }

  /** now plus ms milliseconds, carried into whole seconds. */
  function Deadline(now: Tv, ms: nat): Tv {
    var sec := now.sec + ms / 1000;
    var usec := now.usec + ms % 1000 * 1000;
    Tv(sec + usec / 1_000_000, usec % 1_000_000)
  }

  function Millis(t: Tv): int { t.sec * 1000 + t.usec / 1000 }

  /** msec_dif, in 32-bit unsigned arithmetic. */
  function MsecDif(a: Tv, b: Tv): (d: int)
    ensures 0 <= d < UINT_LIMIT
  {
    (Millis(a) % 0x1_0000_0000 - Millis(b) % 0x1_0000_0000) % 0x1_0000_0000
  }

  // ---- state -------------------------------------------------------------------

  /** struct dev_event */
  datatype DevEv = DevEv(data: seq<int>, pending: bool, period: int, stamp: Tv, hold: seq<Tv>) {
    predicate Valid() { |data| == 6 && |hold| == MAX_BUTTONS }
  }

  function NewDevEv(now: Tv): (e: DevEv)
    ensures e.Valid()
  {
    DevEv(Fill(6, 0), false, 0, now, Fill(MAX_BUTTONS, NEVER))
  }

  /** The globals of event.c, with the event record of every device seen. `codes` are the key codes of kbmap. */
  datatype Core = Core(
    cfg: Cfg<real>, codes: seq<seq<int>>,
    noTrans: bool, noRot: bool, domMode: bool, axisMag: seq<int>, domAxis: int,
    evs: map<int, DevEv>)
  {
    predicate Valid() {
      && cfg.Shaped() && cfg.holdTimeout >= 0
      && |codes| == MAX_BUTTONS && |axisMag| == 6 && 0 <= domAxis < 6
      && forall d :: d in evs ==> evs[d].Valid()
    }
  }

  // what a cooked button turns into
  datatype Effect = Action(act: int) | Key(code: int) | Combo(keys: seq<int>) | Plain(bnum: int)

  datatype Out =
    | RawAxis(axis: int, value: int)
    | RawButton(bnum: int, value: int)
    | MotionOut(dev: int, data: seq<int>, period: int)
    | ButtonOut(dev: int, idx: int, press: bool, hold: bool, what: Effect)
    | SensChanged(sens: real)

  datatype Result = Result(core: Core, outs: seq<Out>)

  // ---- cooking buttons -----------------------------------------------------------

  function HandleAction(c: Core, act: int, press: bool): (r: Result)
    requires c.Valid()
    ensures r.core.Valid() && r.core.evs == c.evs
  {
    if press then Result(c, [])
    else if act == BNACT_SENS_INC then SetSens(c, c.cfg.sensitivity * 1.1)
    else if act == BNACT_SENS_DEC then SetSens(c, c.cfg.sensitivity * 0.9)
    else if act == BNACT_SENS_RESET then SetSens(c, 1.0)
    else if act == BNACT_DISABLE_ROTATION then
      Result(c.(noRot := !c.noRot, noTrans := if !c.noRot then false else c.noTrans), [])
    else if act == BNACT_DISABLE_TRANSLATION then
      Result(c.(noTrans := !c.noTrans, noRot := if !c.noTrans then false else c.noRot), [])
    else if act == BNACT_DOMINANT_AXIS then Result(c.(domMode := !c.domMode), [])
    else Result(c, [])
  }

  function SetSens(c: Core, s: real): Result {
    Result(c.(cfg := c.cfg.(sensitivity := s)), [SensChanged(s)])
  }

  function EffectOf(c: Core, idx: int, hold: bool): Effect
    requires c.Valid() && 0 <= idx < MAX_BUTTONS
  {
    if c.cfg.bnact[idx] > 0 then Action(c.cfg.bnact[idx])
    else if |c.codes[idx]| == 1 then Key(c.codes[idx][0])
    else if |c.codes[idx]| > 1 then Combo(c.codes[idx])
    else Plain(if hold then c.cfg.mapHold[idx] else c.cfg.mapButton[idx])
  }

  /** emit_button */
  function Emit(c: Core, dev: int, idx: int, press: bool, hold: bool): (r: Result)
    requires c.Valid() && 0 <= idx < MAX_BUTTONS
    ensures r.core.Valid() && r.core.evs == c.evs
  {
    var what := EffectOf(c, idx, hold);
    var o := ButtonOut(dev, idx, press, hold, what);
    if what.Action? then
      var r := HandleAction(c, what.act, press);
      r.(outs := [o] + r.outs)
    else Result(c, [o])
  }

  /** A decided tap or hold: press and release together. */
  function Fire(c: Core, dev: int, idx: int, hold: bool): (r: Result)
    requires c.Valid() && 0 <= idx < MAX_BUTTONS
    ensures r.core.Valid() && r.core.evs == c.evs
  {
    var p := Emit(c, dev, idx, true, hold);
    var q := Emit(p.core, dev, idx, false, hold);
    Result(q.core, p.outs + q.outs)
  }

  // ---- motion ----------------------------------------------------------------------

  function Abs(n: int): int { if n < 0 then -n else n }

  // conversion of a real to an int truncates toward zero
  function Trunc(x: real): int { if x >= 0.0 then x.Floor else -(-x).Floor }

  function Scale(v: int, sens: real, axisSens: real): int { Trunc(v as real * sens * axisSens) }

  function MapAxis(cfg: Cfg<real>, i: int): (a: int)
    requires cfg.Shaped() && 0 <= i < MAX_AXES
    ensures -1 <= a < 6
    ensures a == -1 <==> cfg.mapAxis[i] < 0 || cfg.mapAxis[i] >= 6
    ensures a != -1 ==> cfg.mapAxis[i] == if cfg.swapyz != 0 then SwapYz(a) else a
  {
    var a := cfg.mapAxis[i];
    if a < 0 || a >= 6 then -1
    else if cfg.swapyz != 0 then SwapYz(a)
    else a
  }

  function AxisSens(c: Core, a: int): real
    requires c.Valid() && 0 <= a < 6
  {
    if a < 3 then if c.noTrans then 0.0 else c.cfg.sensTrans[a]
    else if c.noRot then 0.0 else c.cfg.sensRot[a - 3]
  }

  // in dominant-axis mode an axis counts only while it beats the dominant one
  predicate Suppressed(c: Core, val: int)
    requires c.Valid()
  {
    c.domMode && Abs(val) <= c.axisMag[c.domAxis]
  }

  /** The value of a motion input on its output axis a: dead zone, scale, truncate, sign. */
  function Cook(c: Core, i: int, val: int, a: int): int
    requires c.Valid() && 0 <= i < MAX_AXES && 0 <= a < 6
  {
    var v := if Abs(val) < c.cfg.dead[i] || Suppressed(c, val) then 0 else val;
    var scaled := Scale(v, c.cfg.sensitivity, AxisSens(c, a));
    if c.cfg.invert[a] then -scaled else scaled
  }

  // the dominant-axis bookkeeping
  function TrackAxis(c: Core, val: int, a: int): (r: Core)
    requires c.Valid() && 0 <= a < 6
    ensures r.Valid() && r.evs == c.evs
  {
    if !c.domMode then c
    else c.(domAxis := if Suppressed(c, val) then c.domAxis else a, axisMag := c.axisMag[a := Abs(val)])
  }

  // ---- inputs -----------------------------------------------------------------------

  function WithDev(c: Core, dev: int, now: Tv): (r: Core)
    requires c.Valid()
    ensures r.Valid() && dev in r.evs
    ensures forall d :: d in c.evs ==> d in r.evs && r.evs[d] == c.evs[d]
    ensures dev !in c.evs ==> r.evs[dev] == NewDevEv(now)
    ensures r.evs.Keys == c.evs.Keys + {dev}
  {
    if dev in c.evs then c else c.(evs := c.evs[dev := NewDevEv(now)])
  }

  /** Dispatch the pending motion, if any. */
  function FlushMotion(c: Core, dev: int, now: Tv): (r: Result)
    requires c.Valid() && dev in c.evs
    ensures r.core.Valid() && r.core.evs.Keys == c.evs.Keys && !r.core.evs[dev].pending
  {
    var e := c.evs[dev];
    if !e.pending then Result(c, [])
    else
      var p := MsecDif(now, e.stamp);
      Result(c.(evs := c.evs[dev := e.(pending := false, period := p, stamp := now)]), [MotionOut(dev, e.data, p)])
  }

  function SetHold(c: Core, dev: int, idx: int, t: Tv): (r: Core)
    requires c.Valid() && dev in c.evs && 0 <= idx < MAX_BUTTONS
    ensures r.Valid() && r.evs.Keys == c.evs.Keys
  {
    c.(evs := c.evs[dev := c.evs[dev].(hold := c.evs[dev].hold[idx := t])])
  }

  /** A button input after the raw event and the motion flush. */
  function CookButton(c: Core, dev: int, idx: int, val: int, now: Tv): (r: Result)
    requires c.Valid() && dev in c.evs && 0 <= idx < MAX_BUTTONS
    ensures r.core.Valid() && r.core.evs.Keys == c.evs.Keys
  {
    if c.cfg.mapHold[idx] == -1 then Emit(c, dev, idx, val != 0, false)
    else if val != 0 then Result(SetHold(c, dev, idx, Deadline(now, c.cfg.holdTimeout)), [])
    else
      var t := c.evs[dev].hold[idx];
      if t == NEVER then Result(c, [])
      else
        var f := Fire(c, dev, idx, AtMost(t, now));
        Result(SetHold(f.core, dev, idx, NEVER), f.outs)
  }

  predicate InputOk(inp: Event) {
    match inp
    case Motion(i, _) => 0 <= i < MAX_AXES
    case Button(i, _) => 0 <= i < MAX_BUTTONS
    case Flush => true
  }

  /** process_input */
  function Process(c: Core, dev: int, inp: Event, now: Tv): (r: Result)
    requires c.Valid() && InputOk(inp)
    ensures r.core.Valid() && r.core.evs.Keys == c.evs.Keys + {dev}
  {
    var c := WithDev(c, dev, now);
    match inp
    case Motion(i, val) =>
      var a := MapAxis(c.cfg, i);
      if a == -1 then Result(c, [RawAxis(i, val)])
      else
        var e := c.evs[dev];
        var after := TrackAxis(c, val, a);
        Result(after.(evs := c.evs[dev := e.(data := e.data[a := Cook(c, i, val, a)], pending := true)]),
               [RawAxis(i, val)])
    case Button(i, val) =>
      var f := FlushMotion(c, dev, now);
      var b := CookButton(f.core, dev, i, val, now);
      Result(b.core, [RawButton(i, val)] + f.outs + b.outs)
    case Flush => FlushMotion(c, dev, now)
  }

  /** repeat_last_motion_event */
  function RepeatLast(c: Core, dev: int, now: Tv): (r: Result)
    requires c.Valid()
    ensures r.core.Valid() && r.core.evs.Keys == c.evs.Keys
  {
    if dev !in c.evs then Result(c, [])
    else
      var e := c.evs[dev];
      var p := MsecDif(now, e.stamp);
      Result(c.(evs := c.evs[dev := e.(period := p, stamp := now)]), [MotionOut(dev, e.data, p)])
  }

  // ---- deadlines ----------------------------------------------------------------------

  predicate Due(t: Tv, now: Tv) { t != NEVER && AtMost(t, now) }

  /** One slot of emit_button_timeouts. */
  function TimerSlot(c: Core, dev: int, i: int, now: Tv): (r: Result)
    requires c.Valid() && dev in c.evs && 0 <= i < MAX_BUTTONS
    ensures r.core.Valid() && r.core.evs.Keys == c.evs.Keys
  {
    if !Due(c.evs[dev].hold[i], now) then Result(c, [])
    else
      var f := Fire(c, dev, i, true);
      Result(SetHold(f.core, dev, i, NEVER), f.outs)
  }

  function TimerSlots(c: Core, dev: int, n: nat, now: Tv): (r: Result)
    requires c.Valid() && dev in c.evs && n <= MAX_BUTTONS
    ensures r.core.Valid() && r.core.evs.Keys == c.evs.Keys
  {
    if n == 0 then Result(c, [])
    else
      var before := TimerSlots(c, dev, n - 1, now);
      var last := TimerSlot(before.core, dev, n - 1, now);
      Result(last.core, before.outs + last.outs)
  }

  /** emit_button_timeouts over the first devices of the list. */
  function TimerPass(c: Core, devs: seq<int>, now: Tv): (r: Result)
    requires c.Valid()
    ensures r.core.Valid() && r.core.evs.Keys == c.evs.Keys
  {
    if devs == [] then Result(c, [])
    else
      var before := TimerPass(c, devs[..|devs| - 1], now);
      var dev := devs[|devs| - 1];
      if dev !in before.core.evs then before
      else
        var last := TimerSlots(before.core, dev, MAX_BUTTONS, now);
        Result(last.core, before.outs + last.outs)
  }

  // ---- runs -----------------------------------------------------------------------------

  datatype Step =
    | Input(dev: int, inp: Event, now: Tv)
    | Timer(devs: seq<int>, now: Tv)
    | Repeat(dev: int, now: Tv)
    | Remove(dev: int)
  {
    predicate Ok() { Input? ==> InputOk(inp) }
  }

  function Advance(c: Core, s: Step): (r: Result)
    requires c.Valid() && s.Ok()
    ensures r.core.Valid()
  {
    match s
    case Input(dev, inp, now) => Process(c, dev, inp, now)
    case Timer(devs, now) => TimerPass(c, devs, now)
    case Repeat(dev, now) => RepeatLast(c, dev, now)
    case Remove(dev) => Result(c.(evs := c.evs - {dev}), [])
  }

  predicate Steps(steps: seq<Step>) { forall s :: s in steps ==> s.Ok() }

  /** The state after a run. */
  function At(c: Core, steps: seq<Step>): (r: Core)
    requires c.Valid() && Steps(steps)
    ensures r.Valid()
  {
    if steps == [] then c else Advance(At(c, steps[..|steps| - 1]), steps[|steps| - 1]).core
  }

  /** All outputs of a run. */
  function AllOuts(c: Core, steps: seq<Step>): seq<Out>
    requires c.Valid() && Steps(steps)
  {
    if steps == [] then []
    else AllOuts(c, steps[..|steps| - 1]) + Advance(At(c, steps[..|steps| - 1]), steps[|steps| - 1]).outs
  }

  /** The outputs of step k of a run. */
  function OutsAt(c: Core, steps: seq<Step>, k: nat): seq<Out>
    requires c.Valid() && Steps(steps) && k < |steps|
  {
    Advance(At(c, steps[..k]), steps[k]).outs
  }
}
