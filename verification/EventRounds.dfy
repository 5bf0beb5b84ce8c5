/**
 The daemon's event loop as a run of passes: reading one device, checking the timers,
 repeating a motion, removing a device. Between passes nothing is pending.
 */
module EventRounds {
  import opened Config
  import opened Inputs
  import opened Events
  import opened EventRuns
  import opened EventMotion

  // the steps of one read loop
  function Round(dev: int, inps: seq<Event>, nows: seq<Tv>): (steps: seq<Step>)
    requires |nows| == |inps| + 1 && forall i :: 0 <= i < |inps| ==> InputOk(inps[i])
    ensures |steps| == |inps| + 1 && Steps(steps)
    ensures forall i :: 0 <= i < |inps| ==> steps[i] == Input(dev, inps[i], nows[i])
    ensures steps[|inps|] == Input(dev, Flush, nows[|inps|])
  {
    seq(|inps| + 1, i requires 0 <= i <= |inps| => Input(dev, if i < |inps| then inps[i] else Flush, nows[i]))
  }

  lemma NoSteps(c: Core)
    requires c.Valid()
    ensures At(c, []) == c && AllOuts(c, []) == []
  {
  }

  lemma OutsNext(c: Core, steps: seq<Step>, k: nat)
    requires c.Valid() && Steps(steps) && k < |steps|
    ensures AllOuts(c, steps[..k + 1]) == AllOuts(c, steps[..k]) + Advance(At(c, steps[..k]), steps[k]).outs
  {
    hide Advance;
    assert steps[..k + 1][..k] == steps[..k];
  }

  lemma FlushDrains(c: Core, dev: int, now: Tv)
    requires c.Valid()
    ensures !Pending(Process(c, dev, Flush, now).core, dev)
  {
    hide Process, Motions;
    MotionStep(c, Input(dev, Flush, now), dev);
  }

  lemma OtherPending(c: Core, dev: int, inp: Event, now: Tv, d: int)
    requires c.Valid() && InputOk(inp) && d != dev
    ensures Pending(Process(c, dev, inp, now).core, d) == Pending(c, d)
  {
    hide Process, Motions;
    MotionStep(c, Input(dev, inp, now), d);
  }

  // ---- passes --------------------------------------------------------------------------

  /** Lost: the device disappears while it is read, and the flush that follows the read meets no record of it. */
  datatype Pass =
    | Read(dev: int, inps: seq<Event>, nows: seq<Tv>)
    | Lost(dev: int, inps: seq<Event>, nows: seq<Tv>)
    | Check(devs: seq<int>, now: Tv)
    | Again(dev: int, now: Tv)
    | Gone(dev: int)
  {
    predicate Ok() {
      Read? || Lost? ==> |nows| == |inps| + 1 && forall i :: 0 <= i < |inps| ==> InputOk(inps[i])
    }
  }

  function StepsOf(p: Pass): (steps: seq<Step>)
    requires p.Ok()
    ensures Steps(steps)
  {
    match p
    case Read(dev, inps, nows) => Round(dev, inps, nows)
    case Lost(dev, inps, nows) =>
      var steps := Round(dev, inps, nows);
      steps[..|inps|] + [Remove(dev), steps[|inps|]]
    case Check(devs, now) => [Timer(devs, now)]
    case Again(dev, now) => [Repeat(dev, now)]
    case Gone(dev) => [Remove(dev)]
  }

  predicate Passes(ps: seq<Pass>) { forall p :: p in ps ==> p.Ok() }

  function AllSteps(ps: seq<Pass>): (steps: seq<Step>)
    requires Passes(ps)
    ensures Steps(steps)
  {
    if ps == [] then []
    else
      assert ps[|ps| - 1] in ps;
      AllSteps(ps[..|ps| - 1]) + StepsOf(ps[|ps| - 1])
  }

  lemma {:induction false} AtConcat(c: Core, a: seq<Step>, b: seq<Step>)
    requires c.Valid() && Steps(a) && Steps(b)
    ensures At(c, a + b) == At(At(c, a), b)
  {
    hide Advance;
    if b == [] {
      assert a + b == a;
    } else {
      assert (a + b)[..|a + b| - 1] == a + b[..|b| - 1];
      AtConcat(c, a, b[..|b| - 1]);
    }
  }

  // a run of inputs of one device leaves the motion of another as it was
  lemma {:induction false} OthersStill(c: Core, steps: seq<Step>, dev: int, d: int)
    requires c.Valid() && Steps(steps) && d != dev
    requires forall s :: s in steps ==> s == Remove(dev) || (s.Input? && s.dev == dev)
    ensures Pending(At(c, steps), d) == Pending(c, d)
  {
    hide Advance, Motions, DataAfter, Data;
    if steps != [] {
      var pre, s := steps[..|steps| - 1], steps[|steps| - 1];
      OthersStill(c, pre, dev, d);
      MotionStep(At(c, pre), s, d);
    }
  }

  lemma LastFlushDrains(c: Core, steps: seq<Step>, dev: int, now: Tv)
    requires c.Valid() && Steps(steps) && steps != [] && steps[|steps| - 1] == Input(dev, Flush, now)
    ensures !Pending(At(c, steps), dev)
  {
    hide Advance, Motions, DataAfter, Data;
    MotionStep(At(c, steps[..|steps| - 1]), steps[|steps| - 1], dev);
  }

  lemma OneStep(c: Core, s: Step, d: int)
    requires c.Valid() && s.Ok() && !s.Input? && !Pending(c, d)
    ensures Steps([s]) && !Pending(At(c, [s]), d)
  {
    hide Advance, Motions, DataAfter, Data;
    assert [s][..0] == [];
    MotionStep(c, s, d);
  }

  lemma PassDrains(c: Core, p: Pass, d: int)
    requires c.Valid() && p.Ok() && !Pending(c, d)
    ensures !Pending(At(c, StepsOf(p)), d)
  {
    hide At, Pending, Round;
    match p
    case Check(devs, now) => OneStep(c, Timer(devs, now), d);
    case Again(dev, now) => OneStep(c, Repeat(dev, now), d);
    case Gone(dev) => OneStep(c, Remove(dev), d);
    case Read(dev, inps, nows) =>
      if d == dev { LastFlushDrains(c, StepsOf(p), dev, nows[|inps|]); } else { OthersStill(c, StepsOf(p), dev, d); }
    case Lost(dev, inps, nows) =>
      if d == dev { LastFlushDrains(c, StepsOf(p), dev, nows[|inps|]); } else { OthersStill(c, StepsOf(p), dev, d); }
  }

  /**
   However reads, timer checks, repeats and removals follow each other, no motion of any
   device is pending before, between and after them; in particular at every timer check.
   */
  lemma {:induction false} NothingPending(c: Core, ps: seq<Pass>, k: nat, d: int)
    requires c.Valid() && Passes(ps) && k <= |ps| && !Pending(c, d)
    ensures !Pending(At(c, AllSteps(ps[..k])), d)
  {
    hide At, Pending, StepsOf;
    if k == 0 {
      NoSteps(c);
    } else {
      NothingPending(c, ps, k - 1, d);
      assert ps[..k][..k - 1] == ps[..k - 1] && ps[k - 1] in ps;
      AtConcat(c, AllSteps(ps[..k - 1]), StepsOf(ps[k - 1]));
      PassDrains(At(c, AllSteps(ps[..k - 1])), ps[k - 1], d);
    }
  }
}
