/**
 Taps and holds: what one step does to one button slot, and what a whole run
 emits for one press of a button with a hold mapping.
 */
module EventSlots {
  import opened Config
  import opened Inputs
  import opened Events

  // ---- what no step changes --------------------------------------------------------

  // button actions change only the sensitivity and the mode flags
  predicate SameMaps(c: Core, k: Core) {
    k.codes == c.codes && k.cfg == c.cfg.(sensitivity := k.cfg.sensitivity)
  }

  lemma EmitSame(c: Core, dev: int, idx: int, press: bool, hold: bool)
    requires c.Valid() && 0 <= idx < MAX_BUTTONS
    ensures SameMaps(c, Emit(c, dev, idx, press, hold).core)
  {
    hide EffectOf;
  }

  lemma FireSame(c: Core, dev: int, idx: int, hold: bool)
    requires c.Valid() && 0 <= idx < MAX_BUTTONS
    ensures SameMaps(c, Fire(c, dev, idx, hold).core)
  {
    hide Emit;
    EmitSame(c, dev, idx, true, hold);
    EmitSame(Emit(c, dev, idx, true, hold).core, dev, idx, false, hold);
  }

  lemma TimerSlotsSame(c: Core, dev: int, n: nat, now: Tv)
    requires c.Valid() && dev in c.evs && n <= MAX_BUTTONS
    ensures SameMaps(c, TimerSlots(c, dev, n, now).core)
  {
    hide Fire, Due;
    if n > 0 {
      TimerSlotsSame(c, dev, n - 1, now);
      FireSame(TimerSlots(c, dev, n - 1, now).core, dev, n - 1, true);
    }
  }

  lemma TimerPassSame(c: Core, devs: seq<int>, now: Tv)
    requires c.Valid()
    ensures SameMaps(c, TimerPass(c, devs, now).core)
  {
    hide TimerSlots;
    if devs != [] {
      TimerPassSame(c, devs[..|devs| - 1], now);
      var before := TimerPass(c, devs[..|devs| - 1], now).core;
      if devs[|devs| - 1] in before.evs { TimerSlotsSame(before, devs[|devs| - 1], MAX_BUTTONS, now); }
    }
  }

  lemma CookButtonSame(c: Core, dev: int, idx: int, val: int, now: Tv)
    requires c.Valid() && dev in c.evs && 0 <= idx < MAX_BUTTONS
    ensures SameMaps(c, CookButton(c, dev, idx, val, now).core)
  {
    hide Emit, Fire, Deadline, AtMost;
    EmitSame(c, dev, idx, val != 0, false);
    FireSame(c, dev, idx, AtMost(c.evs[dev].hold[idx], now));
  }

  lemma ProcessSame(c: Core, dev: int, inp: Event, now: Tv)
    requires c.Valid() && InputOk(inp)
    ensures SameMaps(c, Process(c, dev, inp, now).core)
  {
    hide CookButton, Cook, MapAxis, MsecDif, Suppressed;
    if inp.Button? {
      CookButtonSame(FlushMotion(WithDev(c, dev, now), dev, now).core, dev, inp.idx, inp.val, now);
    }
  }

  lemma AdvanceSame(c: Core, s: Step)
    requires c.Valid() && s.Ok()
    ensures SameMaps(c, Advance(c, s).core)
  {
    hide TimerPass, Process;
    if s.Input? { ProcessSame(c, s.dev, s.inp, s.now); }
    if s.Timer? { TimerPassSame(c, s.devs, s.now); }
  }

  lemma {:induction false} RunSame(c: Core, steps: seq<Step>)
    requires c.Valid() && Steps(steps)
    ensures SameMaps(c, At(c, steps))
  {
    hide Advance;
    if steps != [] {
      RunSame(c, steps[..|steps| - 1]);
      AdvanceSame(At(c, steps[..|steps| - 1]), steps[|steps| - 1]);
    }
  }

  // ---- what is emitted for one button ------------------------------------------------

  predicate About(o: Out, d: int, b: int) { o.ButtonOut? && o.dev == d && o.idx == b }

  ghost predicate Silent(outs: seq<Out>, d: int, b: int) { forall o :: o in outs ==> !About(o, d, b) }

  ghost predicate PairAt(outs: seq<Out>, k: int, d: int, b: int, hold: bool, what: Effect) {
    && 0 <= k && k + 2 <= |outs|
    && outs[k] == ButtonOut(d, b, true, hold, what) && outs[k + 1] == ButtonOut(d, b, false, hold, what)
    && Silent(outs[..k], d, b) && Silent(outs[k + 2..], d, b)
  }

  /** Exactly one press, with the matching release right after it. */
  ghost predicate Decided(outs: seq<Out>, d: int, b: int, hold: bool, what: Effect) {
    exists k :: PairAt(outs, k, d, b, hold, what)
  }

  /** Exactly one output about the button. */
  ghost predicate OneAt(outs: seq<Out>, k: int, d: int, b: int, press: bool, what: Effect) {
    && 0 <= k < |outs| && outs[k] == ButtonOut(d, b, press, false, what)
    && Silent(outs[..k], d, b) && Silent(outs[k + 1..], d, b)
  }

  ghost predicate Single(outs: seq<Out>, d: int, b: int, press: bool, what: Effect) {
    exists k :: OneAt(outs, k, d, b, press, what)
  }

  // Direct: a button without a hold mapping
  datatype Verdict = Nothing | Tap | Hold | Direct(press: bool)

  ghost predicate Says(outs: seq<Out>, d: int, b: int, v: Verdict, c: Core)
    requires c.Valid() && 0 <= b < MAX_BUTTONS
  {
    match v
    case Nothing => Silent(outs, d, b)
    case Tap => Decided(outs, d, b, false, EffectOf(c, b, false))
    case Hold => Decided(outs, d, b, true, EffectOf(c, b, true))
    case Direct(press) => Single(outs, d, b, press, EffectOf(c, b, false))
  }

  lemma SaysFirst(x: seq<Out>, y: seq<Out>, d: int, b: int, v: Verdict, c: Core)
    requires c.Valid() && 0 <= b < MAX_BUTTONS
    requires Says(x, d, b, v, c) && Silent(y, d, b)
    ensures Says(x + y, d, b, v, c)
  {
    hide EffectOf;
    if v.Direct? {
      var k :| OneAt(x, k, d, b, v.press, EffectOf(c, b, false));
      assert (x + y)[..k] == x[..k] && (x + y)[k + 1..] == x[k + 1..] + y;
      assert OneAt(x + y, k, d, b, v.press, EffectOf(c, b, false));
    } else if v != Nothing {
      var h := v == Hold;
      var k :| PairAt(x, k, d, b, h, EffectOf(c, b, h));
      assert (x + y)[..k] == x[..k] && (x + y)[k + 2..] == x[k + 2..] + y;
      assert PairAt(x + y, k, d, b, h, EffectOf(c, b, h));
    }
  }

  lemma SaysLast(x: seq<Out>, y: seq<Out>, d: int, b: int, v: Verdict, c: Core)
    requires c.Valid() && 0 <= b < MAX_BUTTONS
    requires Silent(x, d, b) && Says(y, d, b, v, c)
    ensures Says(x + y, d, b, v, c)
  {
    hide EffectOf;
    if v.Direct? {
      var k :| OneAt(y, k, d, b, v.press, EffectOf(c, b, false));
      assert (x + y)[..|x| + k] == x + y[..k] && (x + y)[|x| + k + 1..] == y[k + 1..];
      assert OneAt(x + y, |x| + k, d, b, v.press, EffectOf(c, b, false));
    } else if v != Nothing {
      var h := v == Hold;
      var k :| PairAt(y, k, d, b, h, EffectOf(c, b, h));
      assert (x + y)[..|x| + k] == x + y[..k] && (x + y)[|x| + k + 2..] == y[k + 2..];
      assert PairAt(x + y, |x| + k, d, b, h, EffectOf(c, b, h));
    }
  }

  lemma SaysSame(outs: seq<Out>, d: int, b: int, v: Verdict, c: Core, k: Core)
    requires c.Valid() && k.Valid() && 0 <= b < MAX_BUTTONS && SameMaps(c, k)
    ensures Says(outs, d, b, v, c) == Says(outs, d, b, v, k)
  {
    hide Decided, Single;
  }

  lemma FireSays(c: Core, dev: int, idx: int, hold: bool, d: int, b: int)
    requires c.Valid() && 0 <= idx < MAX_BUTTONS && 0 <= b < MAX_BUTTONS
    ensures Says(Fire(c, dev, idx, hold).outs, d, b,
                 if dev != d || idx != b then Nothing else if hold then Hold else Tap, c)
  {
    hide EffectOf, HandleAction;
    var w := EffectOf(c, idx, hold);
    var outs := Fire(c, dev, idx, hold).outs;
    FireOuts(c, dev, idx, hold);
    if dev == d && idx == b {
      assert PairAt(outs, 0, d, b, hold, w);
    }
  }

  lemma FireOuts(c: Core, dev: int, idx: int, hold: bool)
    requires c.Valid() && 0 <= idx < MAX_BUTTONS
    ensures var w := EffectOf(c, idx, hold);
            var outs := Fire(c, dev, idx, hold).outs;
            && |outs| >= 2 && outs[0] == ButtonOut(dev, idx, true, hold, w)
            && outs[1] == ButtonOut(dev, idx, false, hold, w)
            && forall k :: 2 <= k < |outs| ==> outs[k].SensChanged?
  {
    hide EffectOf;
    var w := EffectOf(c, idx, hold);
    var p := Emit(c, dev, idx, true, hold);
    assert p == Result(c, [ButtonOut(dev, idx, true, hold, w)]);
    var q := Emit(c, dev, idx, false, hold);
    assert q.outs[0] == ButtonOut(dev, idx, false, hold, w) && forall k :: 1 <= k < |q.outs| ==> q.outs[k].SensChanged?;
  }

  // ---- one step, one slot --------------------------------------------------------------

  function Slot(c: Core, d: int, b: int): Tv
    requires c.Valid() && 0 <= b < MAX_BUTTONS
  {
    if d in c.evs then c.evs[d].hold[b] else NEVER
  }

  predicate Pushes(s: Step, d: int, b: int) { s.Input? && s.dev == d && s.inp.Button? && s.inp.idx == b }

  // the slot of button b on device d after a step, from its value t before it
  function SlotAfter(cfg: Cfg<real>, t: Tv, s: Step, d: int, b: int): Tv
    requires cfg.Shaped() && cfg.holdTimeout >= 0 && 0 <= b < MAX_BUTTONS
  {
    match s
    case Input(dev, inp, now) =>
      if !Pushes(s, d, b) || cfg.mapHold[b] == -1 then t
      else if inp.val != 0 then Deadline(now, cfg.holdTimeout)
      else NEVER
    case Timer(devs, now) => if d in devs && Due(t, now) then NEVER else t
    case Repeat(dev, now) => t
    case Remove(dev) => if dev == d then NEVER else t
  }

  // what the step emits for it
  function SlotSays(cfg: Cfg<real>, t: Tv, s: Step, d: int, b: int): Verdict
    requires cfg.Shaped() && 0 <= b < MAX_BUTTONS
  {
    match s
    case Input(dev, inp, now) =>
      if !Pushes(s, d, b) then Nothing
      else if cfg.mapHold[b] == -1 then Direct(inp.val != 0)
      else if inp.val != 0 || t == NEVER then Nothing
      else if AtMost(t, now) then Hold else Tap
    case Timer(devs, now) => if d in devs && Due(t, now) then Hold else Nothing
    case Repeat(dev, now) => Nothing
    case Remove(dev) => Nothing
  }

  lemma TimerSlotSays(c: Core, dev: int, i: int, now: Tv, d: int, b: int)
    requires c.Valid() && dev in c.evs && 0 <= i < MAX_BUTTONS && 0 <= b < MAX_BUTTONS
    ensures var r := TimerSlot(c, dev, i, now);
            var t := Slot(c, d, b);
            var hit := dev == d && i == b && Due(t, now);
            && Slot(r.core, d, b) == (if hit then NEVER else t)
            && Says(r.outs, d, b, if hit then Hold else Nothing, c)
  {
    hide EffectOf, Decided, Single, AtMost, Fire;
    FireSays(c, dev, i, true, d, b);
  }

  lemma TimerSlotsSay(c: Core, dev: int, n: nat, now: Tv, d: int, b: int)
    requires c.Valid() && dev in c.evs && n <= MAX_BUTTONS && 0 <= b < MAX_BUTTONS
    ensures var r := TimerSlots(c, dev, n, now);
            var t := Slot(c, d, b);
            var hit := dev == d && b < n && Due(t, now);
            && Slot(r.core, d, b) == (if hit then NEVER else t)
            && Says(r.outs, d, b, if hit then Hold else Nothing, c)
  {
    hide EffectOf, Decided, Single, Due, TimerSlot, Slot;
    if n > 0 {
      TimerSlotsSay(c, dev, n - 1, now, d, b);
      var before := TimerSlots(c, dev, n - 1, now);
      TimerSlotSays(before.core, dev, n - 1, now, d, b);
      TimerSlotsSame(c, dev, n - 1, now);
      var last := TimerSlot(before.core, dev, n - 1, now);
      var t := Slot(c, d, b);
      var hit := dev == d && n - 1 == b && Due(t, now);
      SaysSame(last.outs, d, b, if hit then Hold else Nothing, c, before.core);
      if hit {
        SaysLast(before.outs, last.outs, d, b, Hold, c);
      } else {
        SaysFirst(before.outs, last.outs, d, b, if dev == d && b < n - 1 && Due(t, now) then Hold else Nothing, c);
      }
    }
  }

  // once fired, a slot is not due again
  lemma TimerPassSays(c: Core, devs: seq<int>, now: Tv, d: int, b: int)
    requires c.Valid() && 0 <= b < MAX_BUTTONS
    ensures var r := TimerPass(c, devs, now);
            var t := Slot(c, d, b);
            var hit := d in devs && Due(t, now);
            && Slot(r.core, d, b) == (if hit then NEVER else t)
            && Says(r.outs, d, b, if hit then Hold else Nothing, c)
  {
    hide EffectOf, Decided, Single, AtMost, TimerSlots;
    if devs != [] {
      var init, dev := devs[..|devs| - 1], devs[|devs| - 1];
      assert devs == init + [dev];
      TimerPassSays(c, init, now, d, b);
      TimerPassSame(c, init, now);
      var before := TimerPass(c, init, now);
      var t := Slot(c, d, b);
      if dev in before.core.evs {
        TimerSlotsSay(before.core, dev, MAX_BUTTONS, now, d, b);
        var last := TimerSlots(before.core, dev, MAX_BUTTONS, now);
        var hit := dev == d && Due(Slot(before.core, d, b), now);
        SaysSame(last.outs, d, b, if hit then Hold else Nothing, c, before.core);
        if hit {
          SaysLast(before.outs, last.outs, d, b, Hold, c);
        } else {
          SaysFirst(before.outs, last.outs, d, b, if d in init && Due(t, now) then Hold else Nothing, c);
        }
      }
    }
  }

  lemma FlushSilent(c: Core, dev: int, now: Tv, d: int, b: int)
    requires c.Valid() && dev in c.evs && 0 <= b < MAX_BUTTONS
    ensures var r := FlushMotion(c, dev, now);
            && Silent(r.outs, d, b) && Slot(r.core, d, b) == Slot(c, d, b)
            && r.core.cfg == c.cfg && r.core.codes == c.codes
  {
    hide MsecDif;
  }

  lemma EmitSays(c: Core, dev: int, idx: int, press: bool, d: int, b: int)
    requires c.Valid() && 0 <= idx < MAX_BUTTONS && 0 <= b < MAX_BUTTONS
    ensures Says(Emit(c, dev, idx, press, false).outs, d, b, if dev == d && idx == b then Direct(press) else Nothing, c)
  {
    hide EffectOf, Decided;
    var outs := Emit(c, dev, idx, press, false).outs;
    assert outs[0] == ButtonOut(dev, idx, press, false, EffectOf(c, idx, false));
    assert forall k :: 1 <= k < |outs| ==> outs[k].SensChanged?;
    if dev == d && idx == b { assert OneAt(outs, 0, d, b, press, EffectOf(c, b, false)); }
  }

  lemma CookButtonSays(c: Core, dev: int, idx: int, val: int, now: Tv, d: int, b: int)
    requires c.Valid() && dev in c.evs && 0 <= idx < MAX_BUTTONS && 0 <= b < MAX_BUTTONS
    ensures var s := Input(dev, Button(idx, val), now);
            var r := CookButton(c, dev, idx, val, now);
            && Slot(r.core, d, b) == SlotAfter(c.cfg, Slot(c, d, b), s, d, b)
            && Says(r.outs, d, b, SlotSays(c.cfg, Slot(c, d, b), s, d, b), c)
  {
    hide EffectOf, Decided, Single, Fire, Emit, HandleAction, AtMost, Deadline;
    if c.cfg.mapHold[idx] == -1 {
      EmitSays(c, dev, idx, val != 0, d, b);
    } else {
      FireSays(c, dev, idx, AtMost(c.evs[dev].hold[idx], now), d, b);
    }
  }

  lemma ProcessSays(c: Core, dev: int, inp: Event, now: Tv, d: int, b: int)
    requires c.Valid() && InputOk(inp) && 0 <= b < MAX_BUTTONS
    ensures var s := Input(dev, inp, now);
            var r := Process(c, dev, inp, now);
            && Slot(r.core, d, b) == SlotAfter(c.cfg, Slot(c, d, b), s, d, b)
            && Says(r.outs, d, b, SlotSays(c.cfg, Slot(c, d, b), s, d, b), c)
  {
    hide EffectOf, Decided, Single, Cook, MapAxis, AtMost, Deadline, CookButton, FlushMotion, TrackAxis, Suppressed;
    var w := WithDev(c, dev, now);
    assert w.cfg == c.cfg && w.codes == c.codes && Slot(w, d, b) == Slot(c, d, b);
    if inp.Motion? { MotionSays(c, dev, inp, now, d, b); }
    if inp.Flush? { FlushSilent(w, dev, now, d, b); }
    if inp.Button? {
      FlushSilent(w, dev, now, d, b);
      var f := FlushMotion(w, dev, now);
      CookButtonSays(f.core, dev, inp.idx, inp.val, now, d, b);
      var r := CookButton(f.core, dev, inp.idx, inp.val, now);
      var v := SlotSays(c.cfg, Slot(c, d, b), Input(dev, inp, now), d, b);
      SaysSame(r.outs, d, b, v, c, f.core);
      SaysLast([RawButton(inp.idx, inp.val)] + f.outs, r.outs, d, b, v, c);
    }
  }

  lemma MotionSays(c: Core, dev: int, inp: Event, now: Tv, d: int, b: int)
    requires c.Valid() && InputOk(inp) && inp.Motion? && 0 <= b < MAX_BUTTONS
    ensures var r := Process(c, dev, inp, now);
            && Slot(r.core, d, b) == Slot(c, d, b) && Silent(r.outs, d, b)
  {
    hide Cook, MapAxis, Suppressed;
  }

  /** One step of the whole pipeline, seen from one button of one device. */
  lemma SlotStep(c: Core, s: Step, d: int, b: int)
    requires c.Valid() && s.Ok() && 0 <= b < MAX_BUTTONS
    ensures var r := Advance(c, s);
            && Slot(r.core, d, b) == SlotAfter(c.cfg, Slot(c, d, b), s, d, b)
            && Says(r.outs, d, b, SlotSays(c.cfg, Slot(c, d, b), s, d, b), c)
  {
    hide EffectOf, Decided, Single, Process, TimerPass, AtMost, Deadline, MsecDif;
    if s.Input? { ProcessSays(c, s.dev, s.inp, s.now, d, b); }
    if s.Timer? { TimerPassSays(c, s.devs, s.now, d, b); }
  }
}
