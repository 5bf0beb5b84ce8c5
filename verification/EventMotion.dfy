/**
 Motion events over whole runs: what is dispatched is the last value cooked for each
 axis, a flush dispatches only if something arrived, and the periods add up.
 */
module EventMotion {
  import opened Config
  import opened Inputs
  import opened Events
  import opened EventSlots
  import opened EventRuns

  function Data(c: Core, d: int): (s: seq<int>)
    requires c.Valid()
    ensures |s| == 6
  {
    if d in c.evs then c.evs[d].data else Fill(6, 0)
  }

  predicate Pending(c: Core, d: int)
    requires c.Valid()
  {
    d in c.evs && c.evs[d].pending
  }

  // the motion outputs of one device
  function Motions(outs: seq<Out>, d: int): seq<Out> {
    if outs == [] then []
    else
      var o := outs[|outs| - 1];
      Motions(outs[..|outs| - 1], d) + if o.MotionOut? && o.dev == d then [o] else []
  }

  ghost predicate NoMotion(outs: seq<Out>) { forall o :: o in outs ==> !o.MotionOut? }

  lemma {:induction false} NoMotions(outs: seq<Out>, d: int)
    requires NoMotion(outs)
    ensures Motions(outs, d) == []
  {
    if outs != [] {
      var init := outs[..|outs| - 1];
      assert forall o :: o in init ==> o in outs;
      NoMotions(init, d);
    }
  }

  lemma {:induction false} MotionsTail(x: seq<Out>, y: seq<Out>, d: int)
    requires NoMotion(y)
    ensures Motions(x + y, d) == Motions(x, d)
  {
    if y == [] {
      assert x + y == x;
    } else {
      var init := y[..|y| - 1];
      assert forall o :: o in init ==> o in y;
      MotionsTail(x, init, d);
      assert (x + y)[..|x + y| - 1] == x + init;
    }
  }

  // ---- what leaves motion alone --------------------------------------------------------

  predicate SameMotion(c: Core, k: Core, d: int) {
    && (d in c.evs <==> d in k.evs)
    && (d in c.evs ==> k.evs[d] == c.evs[d].(hold := k.evs[d].hold))
  }

  lemma EmitStill(c: Core, dev: int, idx: int, press: bool, hold: bool)
    requires c.Valid() && 0 <= idx < MAX_BUTTONS
    ensures NoMotion(Emit(c, dev, idx, press, hold).outs)
  {
    hide EffectOf;
  }

  lemma FireStill(c: Core, dev: int, idx: int, hold: bool)
    requires c.Valid() && 0 <= idx < MAX_BUTTONS
    ensures NoMotion(Fire(c, dev, idx, hold).outs)
  {
    hide Emit;
    EmitStill(c, dev, idx, true, hold);
    EmitStill(Emit(c, dev, idx, true, hold).core, dev, idx, false, hold);
  }

  lemma TimerSlotsStill(c: Core, dev: int, n: nat, now: Tv, d: int)
    requires c.Valid() && dev in c.evs && n <= MAX_BUTTONS
    ensures SameMotion(c, TimerSlots(c, dev, n, now).core, d) && NoMotion(TimerSlots(c, dev, n, now).outs)
  {
    hide Fire, Due;
    if n > 0 {
      TimerSlotsStill(c, dev, n - 1, now, d);
      FireStill(TimerSlots(c, dev, n - 1, now).core, dev, n - 1, true);
    }
  }

  lemma TimerPassStill(c: Core, devs: seq<int>, now: Tv, d: int)
    requires c.Valid()
    ensures SameMotion(c, TimerPass(c, devs, now).core, d) && NoMotion(TimerPass(c, devs, now).outs)
  {
    hide TimerSlots;
    if devs != [] {
      TimerPassStill(c, devs[..|devs| - 1], now, d);
      var before := TimerPass(c, devs[..|devs| - 1], now).core;
      if devs[|devs| - 1] in before.evs { TimerSlotsStill(before, devs[|devs| - 1], MAX_BUTTONS, now, d); }
    }
  }

  lemma CookButtonStill(c: Core, dev: int, idx: int, val: int, now: Tv, d: int)
    requires c.Valid() && dev in c.evs && 0 <= idx < MAX_BUTTONS
    ensures SameMotion(c, CookButton(c, dev, idx, val, now).core, d) && NoMotion(CookButton(c, dev, idx, val, now).outs)
  {
    hide Emit, Fire, Deadline, AtMost;
    EmitStill(c, dev, idx, val != 0, false);
    FireStill(c, dev, idx, AtMost(c.evs[dev].hold[idx], now));
  }

  // ---- one step ----------------------------------------------------------------------------

  predicate Drains(s: Step, d: int) { s.Input? && s.dev == d && !s.inp.Motion? }

  // the motion outputs a step causes
  function Dispatches(c: Core, s: Step, d: int): seq<Out>
    requires c.Valid()
  {
    if (Drains(s, d) && Pending(c, d)) || (s.Repeat? && s.dev == d && d in c.evs) then
      [MotionOut(d, c.evs[d].data, MsecDif(s.now, c.evs[d].stamp))]
    else []
  }

  // a motion input that is mapped to an output axis
  predicate Feeds(cfg: Cfg<real>, s: Step, d: int)
    requires cfg.Shaped() && s.Ok()
  {
    s.Input? && s.dev == d && s.inp.Motion? && MapAxis(cfg, s.inp.idx) != -1
  }

  function DataAfter(c: Core, s: Step, d: int): seq<int>
    requires c.Valid() && s.Ok()
  {
    if s == Remove(d) then Fill(6, 0)
    else if Feeds(c.cfg, s, d) then
      var a := MapAxis(c.cfg, s.inp.idx);
      Data(c, d)[a := Cook(c, s.inp.idx, s.inp.val, a)]
    else Data(c, d)
  }

  predicate PendingAfter(c: Core, s: Step, d: int)
    requires c.Valid() && s.Ok()
  {
    if s == Remove(d) || Drains(s, d) then false else Feeds(c.cfg, s, d) || Pending(c, d)
  }

  predicate KnownAfter(c: Core, s: Step, d: int) {
    if s == Remove(d) then false else d in c.evs || (s.Input? && s.dev == d)
  }

  function StampAfter(c: Core, s: Step, d: int): Tv
    requires c.Valid() && KnownAfter(c, s, d)
  {
    if d !in c.evs || Dispatches(c, s, d) != [] then s.now else c.evs[d].stamp
  }

  ghost predicate MotionSpec(c: Core, s: Step, d: int, r: Result)
    requires c.Valid() && s.Ok() && r.core.Valid()
  {
    && Motions(r.outs, d) == Dispatches(c, s, d)
    && Data(r.core, d) == DataAfter(c, s, d)
    && (Pending(r.core, d) <==> PendingAfter(c, s, d))
    && (d in r.core.evs <==> KnownAfter(c, s, d))
    && (d in r.core.evs ==> r.core.evs[d].stamp == StampAfter(c, s, d))
  }

  lemma OneMotion(o: Out, d: int)
    ensures Motions([o], d) == if o.MotionOut? && o.dev == d then [o] else []
  {
    assert [o][..|[o]| - 1] == [];
  }

  lemma FlushSpec(c: Core, dev: int, now: Tv, d: int)
    requires c.Valid() && dev in c.evs
    ensures MotionSpec(c, Input(dev, Flush, now), d, FlushMotion(c, dev, now))
  {
    hide MsecDif;
    var outs := FlushMotion(c, dev, now).outs;
    if outs != [] { OneMotion(outs[0], d); }
  }

  // creating the record changes only whether the device is known
  lemma WithDevSpec(c: Core, dev: int, inp: Event, now: Tv, d: int, r: Result)
    requires c.Valid() && InputOk(inp) && r.core.Valid()
    requires MotionSpec(WithDev(c, dev, now), Input(dev, inp, now), d, r)
    ensures MotionSpec(c, Input(dev, inp, now), d, r)
  {
    hide MsecDif, Motions, MapAxis, Cook;
    if inp.Motion? && MapAxis(c.cfg, inp.idx) != -1 {
      CookSame(c, WithDev(c, dev, now), inp.idx, inp.val, MapAxis(c.cfg, inp.idx));
    }
  }

  // cooking does not look at the event records
  lemma CookSame(c: Core, k: Core, i: int, val: int, a: int)
    requires c.Valid() && k == c.(evs := k.evs) && k.Valid() && 0 <= i < MAX_AXES && 0 <= a < 6
    ensures Cook(c, i, val, a) == Cook(k, i, val, a)
  {
    hide Scale;
    assert Suppressed(c, val) == Suppressed(k, val);
    assert AxisSens(c, a) == AxisSens(k, a);
  }

  lemma ButtonSpec(c: Core, dev: int, idx: int, val: int, now: Tv, d: int)
    requires c.Valid() && dev in c.evs && 0 <= idx < MAX_BUTTONS
    ensures MotionSpec(c, Input(dev, Button(idx, val), now), d, Process(c, dev, Button(idx, val), now))
  {
    hide MsecDif, FlushMotion, CookButton, MapAxis, Motions, Fill;
    FlushSpec(c, dev, now, d);
    var f := FlushMotion(c, dev, now);
    CookButtonStill(f.core, dev, idx, val, now, d);
    var b := CookButton(f.core, dev, idx, val, now);
    RawFirst(RawButton(idx, val), f.outs, d);
    MotionsTail([RawButton(idx, val)] + f.outs, b.outs, d);
  }

  lemma RawFirst(o: Out, outs: seq<Out>, d: int)
    requires !o.MotionOut?
    ensures Motions([o] + outs, d) == Motions(outs, d)
  {
    if outs == [] {
      assert [o] + outs == [o];
      NoMotions([o], d);
    } else {
      RawFirst(o, outs[..|outs| - 1], d);
      assert ([o] + outs)[..|[o] + outs| - 1] == [o] + outs[..|outs| - 1];
    }
  }

  lemma MoveSpec(c: Core, dev: int, i: int, val: int, now: Tv, d: int)
    requires c.Valid() && dev in c.evs && 0 <= i < MAX_AXES
    ensures MotionSpec(c, Input(dev, Motion(i, val), now), d, Process(c, dev, Motion(i, val), now))
  {
    hide Cook, Motions, TrackAxis;
    NoMotions([RawAxis(i, val)], d);
  }

  /** One step of the whole pipeline, seen from the motion record of one device. */
  lemma MotionStep(c: Core, s: Step, d: int)
    requires c.Valid() && s.Ok()
    ensures MotionSpec(c, s, d, Advance(c, s))
  {
    hide MotionSpec, Process, TimerPass, RepeatLast;
    match s
    case Input(dev, inp, now) => ProcessSpec(c, dev, inp, now, d);
    case Timer(devs, now) => TimerSpec(c, devs, now, d);
    case Repeat(dev, now) => RepeatSpec(c, dev, now, d);
    case Remove(dev) => RemoveSpec(c, dev, d);
  }

  lemma RepeatSpec(c: Core, dev: int, now: Tv, d: int)
    requires c.Valid()
    ensures MotionSpec(c, Repeat(dev, now), d, RepeatLast(c, dev, now))
  {
    hide MsecDif;
    var outs := RepeatLast(c, dev, now).outs;
    if outs != [] { OneMotion(outs[0], d); }
  }

  lemma RemoveSpec(c: Core, dev: int, d: int)
    requires c.Valid()
    ensures MotionSpec(c, Remove(dev), d, Advance(c, Remove(dev)))
  {
  }

  lemma TimerSpec(c: Core, devs: seq<int>, now: Tv, d: int)
    requires c.Valid()
    ensures MotionSpec(c, Timer(devs, now), d, TimerPass(c, devs, now))
  {
    hide TimerPass, Motions;
    TimerPassStill(c, devs, now, d);
    NoMotions(TimerPass(c, devs, now).outs, d);
  }

  lemma ProcessSpec(c: Core, dev: int, inp: Event, now: Tv, d: int)
    requires c.Valid() && InputOk(inp)
    ensures MotionSpec(c, Input(dev, inp, now), d, Process(c, dev, inp, now))
  {
    hide MotionSpec, FlushMotion, CookButton, MapAxis, Cook, TrackAxis;
    var w := WithDev(c, dev, now);
    assert WithDev(w, dev, now) == w;
    match inp
    case Motion(i, val) =>
      MoveSpec(w, dev, i, val, now, d);
      WithDevSpec(c, dev, inp, now, d, Process(w, dev, inp, now));
    case Button(i, val) =>
      ButtonSpec(w, dev, i, val, now, d);
      WithDevSpec(c, dev, inp, now, d, Process(w, dev, inp, now));
    case Flush =>
      FlushSpec(w, dev, now, d);
      WithDevSpec(c, dev, inp, now, d, Process(w, dev, inp, now));
  }
}
