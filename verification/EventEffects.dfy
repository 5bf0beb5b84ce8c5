/**
 What a button event carries: the mapped number, the emulated key, or the action bound to
 the button, and what actions do to the modes of the pipeline.
 */
module EventEffects {
  import opened Config
  import opened Inputs
  import opened Events
  import opened EventSlots
  import opened EventRuns

  /**
   A bound action comes first, then an emulated key or key combination; a button with neither
   sends a number.
   */
  predicate Bound(c: Core, b: int, what: Effect, number: int)
    requires c.Valid() && 0 <= b < MAX_BUTTONS
  {
    && (c.cfg.bnact[b] > 0 ==> what == Action(c.cfg.bnact[b]))
    && (c.cfg.bnact[b] <= 0 && |c.codes[b]| == 1 ==> what == Key(c.codes[b][0]))
    && (c.cfg.bnact[b] <= 0 && |c.codes[b]| > 1 ==> what == Combo(c.codes[b]))
    && (c.cfg.bnact[b] <= 0 && c.codes[b] == [] ==> what == Plain(number))
  }

  lemma EffectIs(c: Core, b: int, hold: bool)
    requires c.Valid() && 0 <= b < MAX_BUTTONS
    ensures Bound(c, b, EffectOf(c, b, hold), if hold then c.cfg.mapHold[b] else c.cfg.mapButton[b])
  {
  }

  /**
   A press held for the hold timeout or longer sends the hold mapping, a shorter one the button
   mapping, as one press and one release right after it.
   */
  lemma TapOrHoldSends(c: Core, steps: seq<Step>, d: int, b: int, p: nat, q: nat)
    requires c.Valid() && Steps(steps) && Clocked(steps)
    requires 0 <= b < MAX_BUTTONS && c.cfg.mapHold[b] != -1
    requires p < q < |steps| && Press(steps[p], d, b) && Release(steps[q], d, b)
    requires forall m :: p < m < q ==> !Touches(steps[m], d, b)
    ensures var k := FirstCheck(steps, d, Deadline(steps[p].now, c.cfg.holdTimeout), p + 1, q);
            var held := Micros(steps[q].now) - Micros(steps[p].now) >= 1000 * c.cfg.holdTimeout;
            var number := if held then c.cfg.mapHold[b] else c.cfg.mapButton[b];
            exists what :: Bound(c, b, what, number) && Decided(OutsAt(c, steps, k), d, b, held, what)
  {
    hide OutsAt, Bound, EffectOf, Decided, Deadline, Micros, FirstCheck;
    TapOrHold(c, steps, d, b, p, q);
    var k := FirstCheck(steps, d, Deadline(steps[p].now, c.cfg.holdTimeout), p + 1, q);
    var held := Micros(steps[q].now) - Micros(steps[p].now) >= 1000 * c.cfg.holdTimeout;
    EffectIs(c, b, held);
    assert SaysAt(c, steps, k, d, b, if held then Hold else Tap);
    assert Decided(OutsAt(c, steps, k), d, b, held, EffectOf(c, b, held));
  }

  /** A button without a hold mapping sends the button mapping at once, on press and on release. */
  lemma DirectSends(c: Core, steps: seq<Step>, k: nat, d: int, b: int)
    requires c.Valid() && Steps(steps) && k < |steps|
    requires 0 <= b < MAX_BUTTONS && c.cfg.mapHold[b] == -1 && Pushes(steps[k], d, b)
    ensures exists what ::
              Bound(c, b, what, c.cfg.mapButton[b])
              && Single(OutsAt(c, steps, k), d, b, steps[k].inp.val != 0, what)
  {
    hide OutsAt, SlotAt, Bound, EffectOf, Single;
    RunStep(c, steps, k, d, b);
    EffectIs(c, b, false);
    assert Single(OutsAt(c, steps, k), d, b, steps[k].inp.val != 0, EffectOf(c, b, false));
  }

  // ---- actions --------------------------------------------------------------------------------

  // the settings actions change: sensitivity, translation and rotation disabled, dominant axis
  datatype Modes = Modes(sens: real, noTrans: bool, noRot: bool, dominant: bool)

  function ModesOf(c: Core): Modes { Modes(c.cfg.sensitivity, c.noTrans, c.noRot, c.domMode) }

  /** What the actions of the release of a button make of the modes. */
  predicate Switches(act: int, was: Modes, next: Modes) {
    && (act == 1 ==> next == was.(sens := 1.0))
    && (act == 2 ==> next == was.(sens := was.sens * 1.1))
    && (act == 3 ==> next == was.(sens := was.sens * 0.9))
    && (act == 4 ==> next == was.(noRot := !was.noRot, noTrans := was.noTrans && was.noRot))
    && (act == 5 ==> next == was.(noTrans := !was.noTrans, noRot := was.noRot && was.noTrans))
    && (act == 6 ==> next == was.(dominant := !was.dominant))
    && (act <= 0 || act > 6 ==> next == was)
  }

  lemma EmitModes(c: Core, dev: int, b: int, press: bool, hold: bool)
    requires c.Valid() && 0 <= b < MAX_BUTTONS
    ensures var next := ModesOf(Emit(c, dev, b, press, hold).core);
            if press then next == ModesOf(c) else Switches(c.cfg.bnact[b], ModesOf(c), next)
  {
  }

  /**
   An action takes effect on release only: 1 resets the sensitivity, 2 and 3 raise and lower it
   by a tenth, 4 and 5 switch rotation and translation off or on again, where switching one
   off switches the other on, and 6 switches the dominant-axis mode.
   */
  lemma ActionOnRelease(c: Core, dev: int, b: int, val: int, now: Tv)
    requires c.Valid() && 0 <= b < MAX_BUTTONS && c.cfg.mapHold[b] == -1
    ensures var next := ModesOf(Advance(c, Input(dev, Button(b, val), now)).core);
            if val != 0 then next == ModesOf(c) else Switches(c.cfg.bnact[b], ModesOf(c), next)
  {
    hide MsecDif, Emit, Switches;
    var f := FlushMotion(WithDev(c, dev, now), dev, now).core;
    EmitModes(f, dev, b, val != 0, false);
  }

  // ---- every run ------------------------------------------------------------------------------

  // translation and rotation are not both off
  predicate OneOn(c: Core) { !(c.noTrans && c.noRot) }

  lemma EmitOneOn(c: Core, dev: int, b: int, press: bool, hold: bool)
    requires c.Valid() && 0 <= b < MAX_BUTTONS && OneOn(c)
    ensures OneOn(Emit(c, dev, b, press, hold).core)
  {
    hide Emit;
    EmitModes(c, dev, b, press, hold);
  }

  lemma FireOneOn(c: Core, dev: int, b: int, hold: bool)
    requires c.Valid() && 0 <= b < MAX_BUTTONS && OneOn(c)
    ensures OneOn(Fire(c, dev, b, hold).core)
  {
    hide Emit, OneOn;
    EmitOneOn(c, dev, b, true, hold);
    EmitOneOn(Emit(c, dev, b, true, hold).core, dev, b, false, hold);
  }

  lemma {:induction false} SlotsOneOn(c: Core, dev: int, n: nat, now: Tv)
    requires c.Valid() && dev in c.evs && n <= MAX_BUTTONS && OneOn(c)
    ensures OneOn(TimerSlots(c, dev, n, now).core)
  {
    hide Fire, Due;
    if n > 0 {
      SlotsOneOn(c, dev, n - 1, now);
      FireOneOn(TimerSlots(c, dev, n - 1, now).core, dev, n - 1, true);
    }
  }

  lemma {:induction false} PassOneOn(c: Core, devs: seq<int>, now: Tv)
    requires c.Valid() && OneOn(c)
    ensures OneOn(TimerPass(c, devs, now).core)
  {
    hide TimerSlots, OneOn;
    if devs != [] {
      PassOneOn(c, devs[..|devs| - 1], now);
      var before := TimerPass(c, devs[..|devs| - 1], now).core;
      if devs[|devs| - 1] in before.evs { SlotsOneOn(before, devs[|devs| - 1], MAX_BUTTONS, now); }
    }
  }

  lemma ButtonOneOn(c: Core, dev: int, b: int, val: int, now: Tv)
    requires c.Valid() && dev in c.evs && 0 <= b < MAX_BUTTONS && OneOn(c)
    ensures OneOn(CookButton(c, dev, b, val, now).core)
  {
    hide Emit, Fire, Deadline, AtMost;
    EmitOneOn(c, dev, b, val != 0, false);
    FireOneOn(c, dev, b, AtMost(c.evs[dev].hold[b], now));
  }

  lemma StepOneOn(c: Core, s: Step)
    requires c.Valid() && s.Ok() && OneOn(c)
    ensures OneOn(Advance(c, s).core)
  {
    hide TimerPass, CookButton, Cook, MapAxis, MsecDif;
    if s.Input? && s.inp.Button? {
      ButtonOneOn(FlushMotion(WithDev(c, s.dev, s.now), s.dev, s.now).core, s.dev, s.inp.idx, s.inp.val, s.now);
    }
    if s.Timer? { PassOneOn(c, s.devs, s.now); }
  }

  /** However actions, taps and holds follow each other, translation and rotation are never both disabled. */
  lemma {:induction false} NeverBothOff(c: Core, steps: seq<Step>)
    requires c.Valid() && Steps(steps) && OneOn(c)
    ensures OneOn(At(c, steps))
  {
    hide Advance, OneOn;
    if steps != [] {
      NeverBothOff(c, steps[..|steps| - 1]);
      StepOneOn(At(c, steps[..|steps| - 1]), steps[|steps| - 1]);
    }
  }
}
