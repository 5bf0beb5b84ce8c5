/**
 Motion over whole runs, stated from the inputs alone: which values are dispatched,
 when, and how their periods add up.
 */
module EventHistory {
  import opened Basics
  import opened Config
  import opened Inputs
  import opened Events
  import opened EventSlots
  import opened EventRuns
  import opened EventMotion

  // step s moves output axis a of device d
  predicate FeedsAxis(cfg: Cfg<real>, s: Step, d: int, a: int)
    requires cfg.Shaped() && s.Ok()
  {
    Feeds(cfg, s, d) && MapAxis(cfg, s.inp.idx) == a
  }

  /** The cooked value of the last input mapped to axis a in the first n steps; 0 if the device came later. */
  function LastValue(c: Core, steps: seq<Step>, n: nat, d: int, a: int): int
    requires c.Valid() && Steps(steps) && n <= |steps| && 0 <= a < 6
  {
    if n == 0 || steps[n - 1] == Remove(d) then 0
    else if FeedsAxis(c.cfg, steps[n - 1], d, a) then
      Cook(At(c, steps[..n - 1]), steps[n - 1].inp.idx, steps[n - 1].inp.val, a)
    else LastValue(c, steps, n - 1, d, a)
  }

  /** A mapped motion input arrived in the first n steps and no flush, button or removal came after it. */
  ghost predicate Arrived(c: Core, steps: seq<Step>, n: nat, d: int)
    requires c.Valid() && Steps(steps) && n <= |steps|
  {
    exists j :: 0 <= j < n && Feeds(c.cfg, steps[j], d) && forall m :: j < m < n ==> !Clears(steps[m], d)
  }

  predicate Clears(s: Step, d: int) { Drains(s, d) || s == Remove(d) }

  lemma StepSpec(c: Core, steps: seq<Step>, k: nat, d: int)
    requires c.Valid() && Steps(steps) && k < |steps|
    ensures MotionSpec(At(c, steps[..k]), steps[k], d, Advance(At(c, steps[..k]), steps[k]))
    ensures At(c, steps[..k + 1]) == Advance(At(c, steps[..k]), steps[k]).core
    ensures SameMaps(c, At(c, steps[..k]))
  {
    hide MotionSpec, Advance;
    AtNext(c, steps, k);
    MotionStep(At(c, steps[..k]), steps[k], d);
    RunSame(c, steps[..k]);
  }

  lemma {:induction false} DataIs(c: Core, steps: seq<Step>, n: nat, d: int, a: int)
    requires c.Valid() && Steps(steps) && n <= |steps| && d !in c.evs && 0 <= a < 6
    ensures Data(At(c, steps[..n]), d)[a] == LastValue(c, steps, n, d, a)
  {
    hide Advance, At, Cook, Motions, Dispatches, StampAfter;
    if n == 0 {
      StartsEmpty(c, steps, d);
    } else {
      DataIs(c, steps, n - 1, d, a);
      StepSpec(c, steps, n - 1, d);
    }
  }

  lemma StartsEmpty(c: Core, steps: seq<Step>, d: int)
    requires c.Valid() && Steps(steps) && d !in c.evs
    ensures Data(At(c, steps[..0]), d) == Fill(6, 0) && !Pending(At(c, steps[..0]), d)
  {
  }

  lemma {:induction false} PendingIs(c: Core, steps: seq<Step>, n: nat, d: int)
    requires c.Valid() && Steps(steps) && n <= |steps| && d !in c.evs
    ensures Pending(At(c, steps[..n]), d) <==> Arrived(c, steps, n, d)
  {
    hide Advance, At, Motions, Dispatches, StampAfter, DataAfter, Data, Pending, Feeds;
    if n == 0 {
      StartsEmpty(c, steps, d);
    } else {
      PendingIs(c, steps, n - 1, d);
      StepSpec(c, steps, n - 1, d);
      var now := At(c, steps[..n - 1]);
      FeedsSame(c, now, steps[n - 1], d);
      ArrivedNext(c, steps, n, d);
    }
  }

  lemma FeedsSame(c: Core, k: Core, s: Step, d: int)
    requires c.Valid() && k.Valid() && SameMaps(c, k) && s.Ok()
    ensures Feeds(k.cfg, s, d) == Feeds(c.cfg, s, d)
  {
  }

  lemma ArrivedNext(c: Core, steps: seq<Step>, n: nat, d: int)
    requires c.Valid() && Steps(steps) && 0 < n <= |steps|
    ensures Arrived(c, steps, n, d) <==>
            if Clears(steps[n - 1], d) then false
            else Feeds(c.cfg, steps[n - 1], d) || Arrived(c, steps, n - 1, d)
  {
    hide MapAxis;
    var s := steps[n - 1];
    if Arrived(c, steps, n, d) {
      var j :| 0 <= j < n && Feeds(c.cfg, steps[j], d) && forall m :: j < m < n ==> !Clears(steps[m], d);
      if j < n - 1 {
        assert !Clears(steps[n - 1], d);
        assert forall m :: j < m < n - 1 ==> !Clears(steps[m], d);
      }
    }
    if !Clears(s, d) && Feeds(c.cfg, s, d) {
      assert Feeds(c.cfg, steps[n - 1], d);
    }
    if !Clears(s, d) && Arrived(c, steps, n - 1, d) {
      var m := n - 1;
      var j :| 0 <= j < m && Feeds(c.cfg, steps[j], d) && forall i :: j < i < m ==> !Clears(steps[i], d);
      assert forall i :: j < i < n ==> !Clears(steps[i], d);
    }
  }

  /**
   What is dispatched: a flush or button of the device dispatches exactly if a mapped
   motion input arrived since the last one, a repeat whenever the device is known,
   nothing else ever; and the event carries the last value cooked for each axis.
   */
  lemma MotionRefines(c: Core, steps: seq<Step>, k: nat, d: int)
    requires c.Valid() && Steps(steps) && k < |steps| && d !in c.evs
    ensures var outs := Motions(OutsAt(c, steps, k), d);
            && |outs| <= 1
            && (Drains(steps[k], d) ==> (outs != [] <==> Arrived(c, steps, k, d)))
            && (outs != [] && !Drains(steps[k], d) ==> steps[k].Repeat? && steps[k].dev == d)
            && (outs != [] ==> outs[0].MotionOut? && |outs[0].data| == 6)
            && (outs != [] ==> forall a :: 0 <= a < 6 ==> outs[0].data[a] == LastValue(c, steps, k, d, a))
  {
    hide Advance, At, Motions, DataAfter, PendingAfter, StampAfter, Arrived, LastValue;
    StepSpec(c, steps, k, d);
    PendingIs(c, steps, k, d);
    forall a | 0 <= a < 6 ensures Data(At(c, steps[..k]), d)[a] == LastValue(c, steps, k, d, a) {
      DataIs(c, steps, k, d, a);
    }
  }

  /** A button event never overtakes motion: the pending motion goes out before anything the button emits. */
  lemma MotionBeforeButtons(c: Core, dev: int, idx: int, val: int, now: Tv)
    requires c.Valid() && 0 <= idx < MAX_BUTTONS
    ensures var s := Input(dev, Button(idx, val), now);
            exists rest :: NoMotion(rest) &&
              Advance(c, s).outs == [RawButton(idx, val)] + Dispatches(c, s, dev) + rest
  {
    hide MsecDif, CookButton;
    var w := WithDev(c, dev, now);
    var f := FlushMotion(w, dev, now);
    CookButtonStill(f.core, dev, idx, val, now, dev);
    var rest := CookButton(f.core, dev, idx, val, now).outs;
    assert f.outs == Dispatches(c, Input(dev, Button(idx, val), now), dev);
    assert NoMotion(rest);
  }

  ghost predicate Quiet(c: Core)
    requires c.Valid()
  {
    !c.domMode && forall b :: 0 <= b < MAX_BUTTONS ==> c.cfg.bnact[b] <= 0
  }

  lemma QuietSame(c: Core, k: Core)
    requires c.Valid() && k.Valid() && k == c.(evs := k.evs)
    ensures Quiet(c) == Quiet(k)
  {
  }

  lemma FixedStep(c: Core, s: Step)
    requires c.Valid() && s.Ok() && Quiet(c)
    ensures var k := Advance(c, s).core; k == c.(evs := k.evs)
  {
    hide TimerPass, CookButton, Cook, MapAxis, MsecDif;
    if s.Input? && s.inp.Button? {
      FixedButton(FlushMotion(WithDev(c, s.dev, s.now), s.dev, s.now).core, s.dev, s.inp.idx, s.inp.val, s.now);
    }
    if s.Timer? { FixedPass(c, s.devs, s.now); }
  }

  lemma FixedEmit(c: Core, dev: int, idx: int, hold: bool, press: bool)
    requires c.Valid() && Quiet(c) && 0 <= idx < MAX_BUTTONS
    ensures Emit(c, dev, idx, press, hold).core == c && Fire(c, dev, idx, hold).core == c
  {
    assert !EffectOf(c, idx, hold).Action?;
  }

  lemma FixedButton(c: Core, dev: int, idx: int, val: int, now: Tv)
    requires c.Valid() && Quiet(c) && dev in c.evs && 0 <= idx < MAX_BUTTONS
    ensures var k := CookButton(c, dev, idx, val, now).core; k == c.(evs := k.evs)
  {
    hide Emit, Fire, Deadline, AtMost;
    FixedEmit(c, dev, idx, false, val != 0);
    FixedEmit(c, dev, idx, AtMost(c.evs[dev].hold[idx], now), true);
  }

  lemma FixedSlots(c: Core, dev: int, n: nat, now: Tv)
    requires c.Valid() && Quiet(c) && dev in c.evs && n <= MAX_BUTTONS
    ensures var k := TimerSlots(c, dev, n, now).core; k == c.(evs := k.evs)
  {
    hide TimerSlot, Quiet;
    if n > 0 {
      FixedSlots(c, dev, n - 1, now);
      var before := TimerSlots(c, dev, n - 1, now).core;
      QuietSame(c, before);
      FixedSlot(before, dev, n - 1, now);
    }
  }

  lemma FixedSlot(c: Core, dev: int, i: int, now: Tv)
    requires c.Valid() && Quiet(c) && dev in c.evs && 0 <= i < MAX_BUTTONS
    ensures var k := TimerSlot(c, dev, i, now).core; k == c.(evs := k.evs)
  {
    hide Fire, Due, Quiet;
    FixedEmit(c, dev, i, true, true);
  }

  lemma FixedPass(c: Core, devs: seq<int>, now: Tv)
    requires c.Valid() && Quiet(c)
    ensures var k := TimerPass(c, devs, now).core; k == c.(evs := k.evs)
  {
    hide TimerSlots, Quiet;
    if devs != [] {
      FixedPass(c, devs[..|devs| - 1], now);
      var before := TimerPass(c, devs[..|devs| - 1], now).core;
      QuietSame(c, before);
      if devs[|devs| - 1] in before.evs { FixedSlots(before, devs[|devs| - 1], MAX_BUTTONS, now); }
    }
  }

  /** Without button actions and dominant-axis mode every input is cooked by the same configuration. */
  lemma {:induction false} FixedConfig(c: Core, steps: seq<Step>, n: nat)
    requires c.Valid() && Steps(steps) && n <= |steps|
    requires Quiet(c)
    ensures var k := At(c, steps[..n]); k == c.(evs := k.evs)
    ensures forall i, val, a :: 0 <= i < MAX_AXES && 0 <= a < 6 ==>
              Cook(At(c, steps[..n]), i, val, a) == Cook(c, i, val, a)
  {
    hide Advance, Cook;
    if n > 0 {
      FixedConfig(c, steps, n - 1);
      AtNext(c, steps, n - 1);
      FixedStep(At(c, steps[..n - 1]), steps[n - 1]);
    }
    assert steps[..0] == [];
    forall i, val, a | 0 <= i < MAX_AXES && 0 <= a < 6
      ensures Cook(At(c, steps[..n]), i, val, a) == Cook(c, i, val, a)
    {
      CookSame(c, At(c, steps[..n]), i, val, a);
    }
  }

  // ---- periods ----------------------------------------------------------------------------

  function PeriodOf(outs: seq<Out>): int
    requires forall o :: o in outs ==> o.MotionOut?
  {
    if outs == [] then 0 else PeriodOf(outs[1..]) + outs[0].period
  }

  lemma MotionsAre(outs: seq<Out>, d: int)
    ensures forall o :: o in Motions(outs, d) ==> o.MotionOut?
  {
  }

  function PeriodAt(c: Core, steps: seq<Step>, k: nat, d: int): int
    requires c.Valid() && Steps(steps) && k < |steps|
  {
    MotionsAre(OutsAt(c, steps, k), d);
    PeriodOf(Motions(OutsAt(c, steps, k), d))
  }

  /** The periods of all motion events of the device in steps i..j, dispatched or repeated. */
  function Periods(c: Core, steps: seq<Step>, i: nat, j: nat, d: int): int
    requires c.Valid() && Steps(steps) && i <= j <= |steps|
    decreases j
  {
    if i == j then 0 else Periods(c, steps, i, j - 1, d) + PeriodAt(c, steps, j - 1, d)
  }

  // congruent modulo 2^32
  predicate Congruent(x: int, y: int) { (x - y) % 0x1_0000_0000 == 0 }

  lemma CongruentAdd(x: int, y: int, u: int, v: int)
    requires Congruent(x, y) && Congruent(u, v)
    ensures Congruent(x + u, y + v)
  {
    var a, b := (x - y) / 0x1_0000_0000, (u - v) / 0x1_0000_0000;
    assert (x + u) - (y + v) == (a + b) * 0x1_0000_0000;
  }

  lemma MsecDifIs(a: Tv, b: Tv)
    ensures 0 <= MsecDif(a, b) < UINT_LIMIT && Congruent(MsecDif(a, b), Millis(a) - Millis(b))
  {
    ModDif(Millis(a), Millis(b));
  }

  lemma ModDif(x: int, y: int)
    ensures Congruent((x % 0x1_0000_0000 - y % 0x1_0000_0000) % 0x1_0000_0000, x - y)
  {
    var p, q := x / 0x1_0000_0000, y / 0x1_0000_0000;
    var z := x % 0x1_0000_0000 - y % 0x1_0000_0000;
    var k := z / 0x1_0000_0000;
    assert z % 0x1_0000_0000 - (x - y) == (q - p - k) * 0x1_0000_0000;
  }

  // the step that creates the record of device d
  predicate Creates(c: Core, steps: seq<Step>, i: nat, d: int)
    requires c.Valid() && Steps(steps) && i < |steps|
  {
    d !in At(c, steps[..i]).evs && steps[i].Input? && steps[i].dev == d
  }

  // the first milliseconds of a device: no period yet
  lemma PeriodsStart(c: Core, steps: seq<Step>, i: nat, d: int)
    requires c.Valid() && Steps(steps) && i < |steps| && Creates(c, steps, i, d)
    ensures var k := At(c, steps[..i + 1]); d in k.evs && k.evs[d].stamp == steps[i].now
    ensures PeriodAt(c, steps, i, d) == 0
  {
    hide Advance, At, Motions, DataAfter, PendingAfter;
    StepSpec(c, steps, i, d);
  }

  lemma PeriodsStep(c: Core, steps: seq<Step>, k: nat, d: int)
    requires c.Valid() && Steps(steps) && k < |steps| && d in At(c, steps[..k]).evs && steps[k] != Remove(d)
    ensures var now, next := At(c, steps[..k]), At(c, steps[..k + 1]);
            d in next.evs && Congruent(PeriodAt(c, steps, k, d), Millis(next.evs[d].stamp) - Millis(now.evs[d].stamp))
  {
    hide Advance, At, Motions, DataAfter, PendingAfter, MsecDif, Millis, Congruent;
    StepSpec(c, steps, k, d);
    var now := At(c, steps[..k]);
    var outs := Dispatches(now, steps[k], d);
    if outs == [] {
      CongruentSelf(Millis(now.evs[d].stamp));
    } else {
      assert outs[1..] == [];
      assert PeriodOf(outs) == MsecDif(steps[k].now, now.evs[d].stamp);
      MsecDifIs(steps[k].now, now.evs[d].stamp);
    }
  }

  /**
   Conservation of time: from the step that creates the record of a device, the periods
   of all its motion events add up, modulo 2^32, to the whole milliseconds between its
   creation and its last dispatch.
   */
  lemma {:induction false} PeriodsAddUp(c: Core, steps: seq<Step>, i: nat, j: nat, d: int)
    requires c.Valid() && Steps(steps) && i < j <= |steps| && Creates(c, steps, i, d)
    requires forall m :: i < m < j ==> steps[m] != Remove(d)
    ensures var k := At(c, steps[..j]);
            d in k.evs && Congruent(Periods(c, steps, i, j, d), Millis(k.evs[d].stamp) - Millis(steps[i].now))
    decreases j
  {
    hide At, PeriodAt, Millis, Congruent;
    if j == i + 1 {
      PeriodsStart(c, steps, i, d);
      CongruentSelf(Millis(steps[i].now));
      assert Periods(c, steps, i, i, d) == 0;
    } else {
      PeriodsAddUp(c, steps, i, j - 1, d);
      PeriodsStep(c, steps, j - 1, d);
      var before, after := At(c, steps[..j - 1]).evs[d].stamp, At(c, steps[..j]).evs[d].stamp;
      CongruentAdd(Periods(c, steps, i, j - 1, d), Millis(before) - Millis(steps[i].now), PeriodAt(c, steps, j - 1, d),
                   Millis(after) - Millis(before));
    }
  }

  /** The last dispatch of PeriodsAddUp: the stamp is the time of the last step that dispatched, or of the creation. */
  lemma {:induction false} StampIsLast(c: Core, steps: seq<Step>, i: nat, j: nat, d: int)
    requires c.Valid() && Steps(steps) && i < j <= |steps| && Creates(c, steps, i, d)
    requires forall m :: i < m < j ==> steps[m] != Remove(d)
    ensures exists m :: LastDispatch(c, steps, i, j, m, d)
    decreases j
  {
    hide At, OutsAt, LastDispatch;
    if j == i + 1 {
      CreationIsLast(c, steps, i, d);
    } else {
      var n := j - 1;
      StampIsLast(c, steps, i, n, d);
      var m :| LastDispatch(c, steps, i, n, m, d);
      LastDispatchNext(c, steps, i, j, m, d);
    }
  }

  lemma CongruentSelf(x: int)
    ensures Congruent(0, x - x)
  {
  }

  // the stamp was set at step m, the last one in i..j to dispatch, or the creation
  ghost predicate LastDispatch(c: Core, steps: seq<Step>, i: nat, j: nat, m: int, d: int)
    requires c.Valid() && Steps(steps) && i < j <= |steps|
  {
    && i <= m < j && Timed(steps[m])
    && d in At(c, steps[..j]).evs && At(c, steps[..j]).evs[d].stamp == steps[m].now
    && (m != i ==> Motions(OutsAt(c, steps, m), d) != [])
    && forall n :: m < n < j ==> Motions(OutsAt(c, steps, n), d) == []
  }

  lemma CreationIsLast(c: Core, steps: seq<Step>, i: nat, d: int)
    requires c.Valid() && Steps(steps) && i < |steps| && Creates(c, steps, i, d)
    ensures LastDispatch(c, steps, i, i + 1, i, d)
  {
    hide At, OutsAt;
    PeriodsStart(c, steps, i, d);
  }

  lemma LastDispatchNext(c: Core, steps: seq<Step>, i: nat, j: nat, m: int, d: int)
    requires c.Valid() && Steps(steps) && i < j - 1 && j <= |steps| && LastDispatch(c, steps, i, j - 1, m, d)
    requires steps[j - 1] != Remove(d)
    ensures exists n :: LastDispatch(c, steps, i, j, n, d)
  {
    hide Advance, At, Motions, DataAfter, PendingAfter, MsecDif;
    StepSpec(c, steps, j - 1, d);
    if Motions(OutsAt(c, steps, j - 1), d) != [] {
      assert LastDispatch(c, steps, i, j, j - 1, d);
    } else {
      assert LastDispatch(c, steps, i, j, m, d);
    }
  }
}
