/**
 The event queue as the daemon runs it: globals updated in place by input events,
 timer checks and repeats, with every output appended to a log.
 */
module EventLoop {
  import opened Config
  import opened Inputs
  import opened Events
  import opened EventSlots
  import opened EventRuns
  import opened EventDeadlines
  import opened EventMotion
  import opened EventRounds

  // ---- the main loop ----------------------------------------------------------------------------

  predicate Moving(c: Core, d: int)
    requires c.Valid()
  {
    d in c.evs && exists a :: 0 <= a < 6 && c.evs[d].data[a] != 0
  }

  predicate AnyMoving(c: Core, devs: seq<Device>)
    requires c.Valid()
  {
    exists x :: x in devs && x.valid && Moving(c, x.id)
  }

  datatype Timeout = Forever | Until(wait: Tv, repeat: bool)

  function Interval(ms: nat): Tv { Tv(ms / 1000, ms % 1000 * 1000) }

  lemma IntervalIs(ms: nat)
    ensures Normalised(Interval(ms)) && Micros(Interval(ms)) == 1000 * ms
  {
  }

  // no deadline of a valid device is set
  ghost predicate NoneAwaited(c: Core, devs: seq<Device>)
    requires c.Valid()
  {
    forall d, b :: !Awaited(c, devs, d, b)
  }

  ghost predicate Chosen(c: Core, devs: seq<Device>, now: Tv, t: Timeout)
    requires c.Valid()
  {
    var repeats := c.cfg.repeat >= 0 && AnyMoving(c, devs);
    match t
    case Forever => NoneAwaited(c, devs) && !repeats
    case Until(wait, false) => IsWait(c, devs, now, wait) && (repeats ==> !Before(Interval(c.cfg.repeat), wait))
    case Until(wait, true) =>
      repeats && wait == Interval(c.cfg.repeat)
      && (NoneAwaited(c, devs) || exists w :: IsWait(c, devs, now, w) && Before(wait, w))
  }

  /** select() never sleeps past a button deadline, and repeats only if nothing is due in between. */
  lemma NeverLate(c: Core, devs: seq<Device>, now: Tv, t: Timeout, later: Tv)
    requires c.Valid() && SlotsClock(c) && Clock(now) && Clock(later) && Chosen(c, devs, now, t)
    requires t.Until? && Micros(now) <= Micros(later) < Micros(now) + Micros(t.wait)
    ensures forall d, b :: Awaited(c, devs, d, b) ==> !Due(Slot(c, d, b), later)
  {
    hide Slot, Awaited, AtMost, Due, SlotsClock, Clock, Micros, IsWait;
    if t.repeat {
      if !NoneAwaited(c, devs) {
        var w :| IsWait(c, devs, now, w) && Before(t.wait, w);
        IntervalIs(c.cfg.repeat);
        WaitThenFire(c, devs, now, w, later);
        AtMostIs(t.wait, w);
        Sooner(c, devs, now, t.wait, w, later);
      }
    } else {
      Sooner(c, devs, now, t.wait, t.wait, later);
    }
  }

  lemma Sooner(c: Core, devs: seq<Device>, now: Tv, t: Tv, w: Tv, later: Tv)
    requires c.Valid() && SlotsClock(c) && Clock(now) && Clock(later) && IsWait(c, devs, now, w)
    requires Micros(t) <= Micros(w) && Micros(later) < Micros(now) + Micros(t) && Micros(later) >= Micros(now)
    ensures forall d, b :: Awaited(c, devs, d, b) ==> !Due(Slot(c, d, b), later)
  {
    hide Slot, Awaited, AtMost, SlotsClock, Clock, Micros, IsWait;
    WaitThenFire(c, devs, now, w, later);
  }

  /** One dispatch for each moving device. */
  function Repeats(c: Core, ids: seq<int>, now: Tv): (steps: seq<Step>)
    requires c.Valid()
    ensures Steps(steps)
  {
    if ids == [] then []
    else Repeats(c, ids[..|ids| - 1], now) + if Moving(c, ids[|ids| - 1]) then [Repeat(ids[|ids| - 1], now)] else []
  }

  // repeating changes nobody's motion data
  lemma {:induction false} RepeatsKeepMoving(c: Core, ids: seq<int>, now: Tv, d: int)
    requires c.Valid()
    ensures var k := At(c, Repeats(c, ids, now)); Moving(k, d) == Moving(c, d)
  {
    hide RepeatLast, At, Repeats, Moving;
    if ids == [] {
      NoRepeats(c, now);
    } else {
      var init, last := ids[..|ids| - 1], ids[|ids| - 1];
      assert ids == init + [last];
      RepeatsKeepMoving(c, init, now, d);
      RepeatsNext(c, init, last, now);
      RepeatKeepsMoving(At(c, Repeats(c, init, now)), last, now, d);
    }
  }

  lemma NoRepeats(c: Core, now: Tv)
    requires c.Valid()
    ensures At(c, Repeats(c, [], now)) == c && AllOuts(c, Repeats(c, [], now)) == []
  {
  }

  lemma RepeatsNext(c: Core, ids: seq<int>, d: int, now: Tv)
    requires c.Valid()
    ensures var k := At(c, Repeats(c, ids, now));
            var r := if Moving(c, d) then RepeatLast(k, d, now) else Result(k, []);
            && At(c, Repeats(c, ids + [d], now)) == r.core
            && AllOuts(c, Repeats(c, ids + [d], now)) == AllOuts(c, Repeats(c, ids, now)) + r.outs
  {
    hide RepeatLast, Moving;
    var steps := Repeats(c, ids, now);
    assert (ids + [d])[..|ids|] == ids && steps + [] == steps;
    assert (steps + [Repeat(d, now)])[..|steps|] == steps;
  }

  lemma RepeatKeepsMoving(c: Core, dev: int, now: Tv, d: int)
    requires c.Valid()
    ensures Moving(RepeatLast(c, dev, now).core, d) == Moving(c, d)
  {
    hide MsecDif;
  }

  // process_input after the record has been found or added
  lemma ProcessParts(c: Core, dev: int, inp: Event, now: Tv)
    requires c.Valid() && InputOk(inp)
    ensures var w := WithDev(c, dev, now);
            match inp
            case Motion(i, val) => Process(c, dev, inp, now) == Process(w, dev, inp, NEVER)
            case Flush => Process(c, dev, inp, now) == FlushMotion(w, dev, now)
            case Button(i, val) =>
              var f := FlushMotion(w, dev, now);
              var b := CookButton(f.core, dev, i, val, now);
              Process(c, dev, inp, now) == Result(b.core, [RawButton(i, val)] + f.outs + b.outs)
  {
    hide FlushMotion, CookButton, MapAxis, Cook, TrackAxis;
  }

  lemma SlotUnknown(c: Core, devs: seq<Device>, x: Device)
    requires c.Valid() && (!x.valid || x.id !in c.evs)
    ensures forall d, b :: Awaited(c, devs + [x], d, b) == Awaited(c, devs, d, b)
  {
  }

  lemma EarliestGrows(c: Core, devs: seq<Device>, x: Device, had: bool, was: Tv, found: bool, min: Tv)
    requires c.Valid() && x.valid && x.id in c.evs
    requires if had then Earliest(c, devs, was) else forall d, b :: !Awaited(c, devs, d, b)
    requires found == (had || exists b :: 0 <= b < MAX_BUTTONS && Slot(c, x.id, b) != NEVER)
    requires found ==>
               (had && min == was) || exists b :: 0 <= b < MAX_BUTTONS && Slot(c, x.id, b) == min && min != NEVER
    requires found ==> (had ==> AtMost(min, was))
    requires found ==> forall b :: 0 <= b < MAX_BUTTONS && Slot(c, x.id, b) != NEVER ==> AtMost(min, Slot(c, x.id, b))
    ensures if found then Earliest(c, devs + [x], min) else forall d, b :: !Awaited(c, devs + [x], d, b)
  {
    hide Slot;
    var more := devs + [x];
    forall d, b
      ensures Awaited(c, more, d, b) <==>
                Awaited(c, devs, d, b) || (d == x.id && 0 <= b < MAX_BUTTONS && Slot(c, d, b) != NEVER)
    {
    }
    if found {
      if had && min == was {
        var d, b :| Awaited(c, devs, d, b) && Slot(c, d, b) == was;
        assert Awaited(c, more, d, b);
      } else {
        var b :| 0 <= b < MAX_BUTTONS && Slot(c, x.id, b) == min && min != NEVER;
        assert Awaited(c, more, x.id, b);
      }
    }
  }

  class EventQueue {
    var cfg: Cfg<real>
    const codes: seq<seq<int>>
    var noTrans: bool
    var noRot: bool
    var domMode: bool
    var axisMag: seq<int>
    var domAxis: int
    var evs: map<int, DevEv>
    var log: seq<Out>

    function State(): Core
      reads this
    {
      Core(cfg, codes, noTrans, noRot, domMode, axisMag, domAxis, evs)
    }

    predicate Valid()
      reads this
    {
      State().Valid()
    }

    // the step from the old state gives result r
    twostate predicate Did(r: Result)
      reads this
    {
      State() == r.core && log == old(log) + r.outs
    }

    constructor (cfg: Cfg<real>, codes: seq<seq<int>>)
      requires cfg.Shaped() && cfg.holdTimeout >= 0 && |codes| == MAX_BUTTONS
      ensures Valid() && evs == map[] && log == [] && SlotsClock(State())
      ensures State() == Core(cfg, codes, false, false, false, Fill(6, 0), 0, map[])
    {
      this.cfg, this.codes := cfg, codes;
      noTrans, noRot, domMode, axisMag, domAxis := false, false, false, Fill(6, 0), 0;
      evs, log := map[], [];
    }

    method ChangeSens(s: real)
      requires Valid()
      modifies this`cfg, this`log
      ensures Valid() && Did(SetSens(old(State()), s))
    {
      cfg := cfg.(sensitivity := s);
      log := log + [SensChanged(s)];
    }

    method HandleButtonAction(act: int, press: bool)
      requires Valid()
      modifies this
      ensures Valid() && Did(HandleAction(old(State()), act, press))
    {
      hide SetSens;
      if press {
        return;
      }
      if act == BNACT_SENS_INC {
        ChangeSens(cfg.sensitivity * 1.1);
      } else if act == BNACT_SENS_DEC {
        ChangeSens(cfg.sensitivity * 0.9);
      } else if act == BNACT_SENS_RESET {
        ChangeSens(1.0);
      } else if act == BNACT_DISABLE_ROTATION {
        noRot := !noRot;
        if noRot {
          noTrans := false;
        }
      } else if act == BNACT_DISABLE_TRANSLATION {
        noTrans := !noTrans;
        if noTrans {
          noRot := false;
        }
      } else if act == BNACT_DOMINANT_AXIS {
        domMode := !domMode;
      }
    }

    method EmitButton(dev: int, idx: int, press: bool, hold: bool)
      requires Valid() && 0 <= idx < MAX_BUTTONS
      modifies this
      ensures Valid() && Did(Emit(old(State()), dev, idx, press, hold))
    {
      hide HandleAction;
      if cfg.bnact[idx] > 0 {
        log := log + [ButtonOut(dev, idx, press, hold, Action(cfg.bnact[idx]))];
        HandleButtonAction(cfg.bnact[idx], press);
      } else if |codes[idx]| == 1 {
        log := log + [ButtonOut(dev, idx, press, hold, Key(codes[idx][0]))];
      } else if |codes[idx]| > 1 {
        log := log + [ButtonOut(dev, idx, press, hold, Combo(codes[idx]))];
      } else {
        var bnum := if hold then cfg.mapHold[idx] else cfg.mapButton[idx];
        log := log + [ButtonOut(dev, idx, press, hold, Plain(bnum))];
      }
    }

    method EmitPair(dev: int, idx: int, hold: bool)
      requires Valid() && 0 <= idx < MAX_BUTTONS
      modifies this
      ensures Valid() && Did(Fire(old(State()), dev, idx, hold))
    {
      hide Emit;
      EmitButton(dev, idx, true, hold);
      EmitButton(dev, idx, false, hold);
    }

    // update_motion_period and dispatch_event
    method DispatchMotion(dev: int, now: Tv)
      requires Valid() && dev in evs
      modifies this
      ensures Valid() && Did(RepeatLast(old(State()), dev, now))
    {
      hide MsecDif;
      var e := evs[dev];
      e := e.(period := MsecDif(now, e.stamp), stamp := now);
      evs := evs[dev := e];
      log := log + [MotionOut(dev, e.data, e.period)];
    }

    method FlushPending(dev: int, now: Tv)
      requires Valid() && dev in evs
      modifies this
      ensures Valid() && Did(FlushMotion(old(State()), dev, now))
    {
      hide MsecDif;
      if evs[dev].pending {
        DispatchMotion(dev, now);
        evs := evs[dev := evs[dev].(pending := false)];
      }
    }

    // dominant-axis mode: whether the input is suppressed
    method DominantAxis(val: int, axis: int) returns (beaten: bool)
      requires Valid() && 0 <= axis < 6
      modifies this`domAxis, this`axisMag
      ensures Valid() && State() == TrackAxis(old(State()), val, axis) && beaten == Suppressed(old(State()), val)
    {
      var mag := Abs(val);
      beaten := false;
      if domMode {
        if mag > axisMag[domAxis] {
          domAxis := axis;
        } else {
          beaten := true;
        }
        axisMag := axisMag[axis := mag];
      }
    }

    method ProcessMotion(dev: int, i: int, val: int)
      requires Valid() && dev in evs && 0 <= i < MAX_AXES
      modifies this
      ensures Valid() && Did(Process(old(State()), dev, Motion(i, val), NEVER))
    {
      hide MapAxis, Scale, AxisSens, Suppressed, TrackAxis;
      log := log + [RawAxis(i, val)];
      var v := if Abs(val) < cfg.dead[i] then 0 else val;
      var axis := MapAxis(cfg, i);
      if axis == -1 {
        return;
      }
      var sens := AxisSens(State(), axis);
      var beaten := DominantAxis(val, axis);
      if beaten {
        v := 0;
      }
      v := Scale(v, cfg.sensitivity, sens);
      var e := evs[dev];
      evs := evs[dev := e.(data := e.data[axis := if cfg.invert[axis] then -v else v], pending := true)];
    }

    method ProcessButton(dev: int, idx: int, val: int, now: Tv)
      requires Valid() && dev in evs && 0 <= idx < MAX_BUTTONS
      modifies this
      ensures Valid() && Did(CookButton(old(State()), dev, idx, val, now))
    {
      hide Emit, Fire, Deadline, AtMost;
      if cfg.mapHold[idx] == -1 {
        EmitButton(dev, idx, val != 0, false);
        return;
      }
      var timeout := evs[dev].hold[idx];
      if val != 0 {
        StoreHold(dev, idx, Deadline(now, cfg.holdTimeout));
      } else if timeout != NEVER {
        EmitPair(dev, idx, AtMost(timeout, now));
        StoreHold(dev, idx, NEVER);
      }
    }

    method StoreHold(dev: int, idx: int, t: Tv)
      requires Valid() && dev in evs && 0 <= idx < MAX_BUTTONS
      modifies this
      ensures Valid() && State() == SetHold(old(State()), dev, idx, t) && log == old(log)
    {
      evs := evs[dev := evs[dev].(hold := evs[dev].hold[idx := t])];
    }

    // get_dev_event, and add_dev_event for a device not seen before
    method GetDevEvent(dev: int, now: Tv)
      requires Valid()
      modifies this`evs
      ensures Valid() && State() == WithDev(old(State()), dev, now)
    {
      if dev !in evs {
        evs := evs[dev := NewDevEv(now)];
      }
    }

    method ProcessInput(dev: int, inp: Event, now: Tv)
      requires Valid() && InputOk(inp)
      modifies this
      ensures Valid() && Did(Process(old(State()), dev, inp, now))
    {
      hide Process, FlushMotion, CookButton, WithDev;
      ProcessParts(State(), dev, inp, now);
      GetDevEvent(dev, now);
      match inp
      case Motion(i, val) =>
        ProcessMotion(dev, i, val);
      case Button(i, val) =>
        log := log + [RawButton(i, val)];
        FlushPending(dev, now);
        ProcessButton(dev, i, val, now);
      case Flush =>
        FlushPending(dev, now);
    }

    method RepeatLastMotionEvent(dev: int, now: Tv)
      requires Valid()
      modifies this
      ensures Valid() && Did(RepeatLast(old(State()), dev, now))
    {
      if dev in evs {
        DispatchMotion(dev, now);
      }
    }

    method RemoveDevEvent(dev: int)
      requires Valid()
      modifies this
      ensures Valid() && Did(Advance(old(State()), Remove(dev)))
    {
      evs := evs - {dev};
    }

    // ---- the read loop of handle_events ---------------------------------------------------

    /** Everything read from one device, then a flush: nothing of it stays pending. */
    method ReadDevice(dev: int, inps: seq<Event>, nows: seq<Tv>)
      requires Valid() && |nows| == |inps| + 1 && forall i :: 0 <= i < |inps| ==> InputOk(inps[i])
      modifies this
      ensures Valid() && State() == At(old(State()), Round(dev, inps, nows))
      ensures log == old(log) + AllOuts(old(State()), Round(dev, inps, nows))
      ensures !Pending(State(), dev)
      ensures forall d :: d != dev ==> Pending(State(), d) == old(Pending(State(), d))
    {
      hide Process, At, AllOuts, MotionSpec;
      var n := 0;
      ghost var start := State();
      ghost var steps := Round(dev, inps, nows);
      assert steps[..0] == [];
      NoSteps(start);
      while n < |inps|
        invariant 0 <= n <= |inps| && Valid()
        invariant State() == At(start, steps[..n]) && log == old(log) + AllOuts(start, steps[..n])
        invariant forall d :: d != dev ==> Pending(State(), d) == Pending(start, d)
      {
        ghost var before := State();
        ProcessInput(dev, inps[n], nows[n]);
        assert steps[n] == Input(dev, inps[n], nows[n]);
        AtNext(start, steps, n);
        OutsNext(start, steps, n);
        forall d | d != dev
          ensures Pending(State(), d) == Pending(before, d)
        {
          OtherPending(before, dev, inps[n], nows[n], d);
        }
        n := n + 1;
      }
      ghost var before := State();
      ProcessInput(dev, Flush, nows[n]);
      AtNext(start, steps, n);
      OutsNext(start, steps, n);
      assert steps[..n + 1] == steps;
      forall d | d != dev
        ensures Pending(State(), d) == Pending(before, d)
      {
        OtherPending(before, dev, Flush, nows[n], d);
      }
      FlushDrains(before, dev, nows[n]);
    }

    // ---- deadlines -------------------------------------------------------------------------

    method CheckDevice(dev: int, now: Tv)
      requires Valid() && dev in evs
      modifies this
      ensures Valid() && Did(TimerSlots(old(State()), dev, MAX_BUTTONS, now))
    {
      hide TimerSlot, AtMost;
      var i := 0;
      while i < MAX_BUTTONS
        invariant 0 <= i <= MAX_BUTTONS && Valid() && dev in evs
        invariant Did(TimerSlots(old(State()), dev, i, now))
      {
        CheckSlot(dev, i, now);
        i := i + 1;
      }
    }

    method CheckSlot(dev: int, i: int, now: Tv)
      requires Valid() && dev in evs && 0 <= i < MAX_BUTTONS
      modifies this
      ensures Valid() && Did(TimerSlot(old(State()), dev, i, now))
    {
      hide Fire, AtMost;
      var timeout := evs[dev].hold[i];
      if timeout != NEVER && AtMost(timeout, now) {
        EmitPair(dev, i, true);
        StoreHold(dev, i, NEVER);
      }
    }

    method EmitButtonTimeouts(devs: seq<Device>, now: Tv)
      requires Valid()
      modifies this
      ensures Valid() && Did(TimerPass(old(State()), Ids(devs), now))
    {
      hide TimerSlots;
      var n := 0;
      ghost var ids := Ids(devs);
      assert ids[..0] == [];
      while n < |devs|
        invariant 0 <= n <= |devs| && Valid()
        invariant Did(TimerPass(old(State()), ids[..n], now))
      {
        if devs[n].id in evs {
          CheckDevice(devs[n].id, now);
        }
        assert ids[..n + 1][..n] == ids[..n];
        n := n + 1;
      }
      assert ids[..n] == ids;
    }

    // the earliest deadline of one device, continuing from the earliest so far
    method EarliestOf(dev: int, found: bool, min: Tv) returns (some: bool, t: Tv)
      requires Valid() && dev in evs
      ensures some == (found || exists b :: 0 <= b < MAX_BUTTONS && Slot(State(), dev, b) != NEVER)
      ensures some ==>
                (found && t == min) || exists b :: 0 <= b < MAX_BUTTONS && Slot(State(), dev, b) == t && t != NEVER
      ensures some ==> (found ==> AtMost(t, min))
      ensures some ==> forall b :: 0 <= b < MAX_BUTTONS && Slot(State(), dev, b) != NEVER ==>
                AtMost(t, Slot(State(), dev, b))
    {
      some, t := found, min;
      var i := 0;
      while i < MAX_BUTTONS
        invariant 0 <= i <= MAX_BUTTONS
        invariant some == (found || exists b :: 0 <= b < i && Slot(State(), dev, b) != NEVER)
        invariant some ==> (found && t == min) || exists b :: 0 <= b < i && Slot(State(), dev, b) == t && t != NEVER
        invariant some ==> (found ==> AtMost(t, min))
        invariant some ==> forall b :: 0 <= b < i && Slot(State(), dev, b) != NEVER ==> AtMost(t, Slot(State(), dev, b))
      {
        var hold := evs[dev].hold[i];
        assert hold == Slot(State(), dev, i);
        if hold != NEVER {
          if !some || Before(hold, t) {
            some, t := true, hold;
          }
        }
        i := i + 1;
      }
    }

    /** No deadline of a valid device is set, or the wait ends at the earliest one. */
    method NextButtonTimeout(devs: seq<Device>, now: Tv) returns (none: bool, wait: Tv)
      requires Valid()
      ensures none <==> forall d, b :: !Awaited(State(), devs, d, b)
      ensures !none ==> IsWait(State(), devs, now, wait)
    {
      hide Remaining, AtMost, Slot;
      var found, min := false, NEVER;
      var n := 0;
      while n < |devs|
        invariant 0 <= n <= |devs|
        invariant !found ==> forall d, b :: !Awaited(State(), devs[..n], d, b)
        invariant found ==> Earliest(State(), devs[..n], min)
      {
        assert devs[..n + 1] == devs[..n] + [devs[n]];
        if devs[n].valid && devs[n].id in evs {
          ghost var was, had := min, found;
          found, min := EarliestOf(devs[n].id, found, min);
          EarliestGrows(State(), devs[..n], devs[n], had, was, found, min);
        } else {
          SlotUnknown(State(), devs[..n], devs[n]);
        }
        n := n + 1;
      }
      assert devs[..n] == devs;
      none := !found;
      wait := Remaining(min, now);
    }

    // ---- the main loop --------------------------------------------------------------------------

    // in_deadzone; a device without a record counts as in the dead zone
    method InDeadzone(dev: int) returns (still: bool)
      requires Valid()
      ensures still == !Moving(State(), dev)
    {
      if dev !in evs {
        return true;
      }
      var i := 0;
      while i < 6
        invariant 0 <= i <= 6 && forall a :: 0 <= a < i ==> evs[dev].data[a] == 0
      {
        if evs[dev].data[i] != 0 {
          return false;
        }
        i := i + 1;
      }
      still := true;
    }

    /**
     What select() waits for: the earliest button deadline, or the repeat interval if a
     valid device is out of its dead zone and the interval ends strictly sooner.
     */
    method ChooseTimeout(devs: seq<Device>, now: Tv) returns (timeout: Timeout)
      requires Valid()
      ensures Chosen(State(), devs, now, timeout)
    {
      hide IsWait, Awaited, AtMost, Slot, Earliest;
      var none, wait := NextButtonTimeout(devs, now);
      timeout := if none then Forever else Until(wait, false);
      if cfg.repeat >= 0 {
        var i := 0;
        while i < |devs|
          invariant 0 <= i <= |devs| && forall k :: 0 <= k < i ==> !(devs[k].valid && Moving(State(), devs[k].id))
          invariant timeout == if none then Forever else Until(wait, false)
        {
          if devs[i].valid {
            var still := InDeadzone(devs[i].id);
            if !still {
              assert AnyMoving(State(), devs) by { assert devs[i] in devs; }
              var interval := Interval(cfg.repeat);
              if none || Before(interval, wait) {
                timeout := Until(interval, true);
              }
              return;
            }
          }
          i := i + 1;
        }
        assert !AnyMoving(State(), devs);
      }
    }

    /** The repeat interval is over: every device out of its dead zone dispatches its last motion again. */
    method RepeatMoving(devs: seq<Device>, now: Tv)
      requires Valid()
      modifies this
      ensures Valid() && State() == At(old(State()), Repeats(old(State()), Ids(devs), now))
      ensures log == old(log) + AllOuts(old(State()), Repeats(old(State()), Ids(devs), now))
    {
      hide RepeatLast, At, AllOuts, Repeats, Moving;
      ghost var start, ids := State(), Ids(devs);
      var n := 0;
      assert ids[..0] == [];
      NoRepeats(start, now);
      while n < |devs|
        invariant 0 <= n <= |devs| && Valid()
        invariant State() == At(start, Repeats(start, ids[..n], now))
        invariant log == old(log) + AllOuts(start, Repeats(start, ids[..n], now))
      {
        assert ids[..n + 1] == ids[..n] + [devs[n].id];
        RepeatsNext(start, ids[..n], devs[n].id, now);
        RepeatsKeepMoving(start, ids[..n], now, devs[n].id);
        var still := InDeadzone(devs[n].id);
        if !still {
          RepeatLastMotionEvent(devs[n].id, now);
        }
        n := n + 1;
      }
      assert ids[..n] == ids;
    }
  }
}
