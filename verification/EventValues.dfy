/**
 The numbers motion events carry, told from the configuration: where a motion input goes,
 which value it becomes, and what a client sees of it.
 */
module EventValues {
  import opened Basics
  import opened Config
  import opened Inputs
  import opened Events
  import opened EventSlots
  import opened EventRuns
  import opened EventMotion
  import opened EventHistory

  // ---- one input ---------------------------------------------------------------------------

  predicate Mapped(cfg: Cfg<real>, i: int)
    requires cfg.Shaped() && 0 <= i < MAX_AXES
  {
    0 <= cfg.mapAxis[i] < 6
  }

  /** The output axis of device axis i: x, y, z, rx, ry, rz, with y and z exchanged by swap-yz. */
  function Target(cfg: Cfg<real>, i: int): (a: int)
    requires cfg.Shaped() && 0 <= i < MAX_AXES && Mapped(cfg, i)
    ensures 0 <= a < 6
  {
    if cfg.swapyz != 0 then [0, 2, 1, 3, 5, 4][cfg.mapAxis[i]] else cfg.mapAxis[i]
  }

  function Magnitude(n: int): nat { if n < 0 then -n else n }

  /** The input counts as no motion: dead zone, beaten by the dominant axis, or its kind disabled. */
  predicate Ignored(c: Core, i: int, val: int, a: int)
    requires c.Valid() && 0 <= i < MAX_AXES
  {
    || Magnitude(val) < c.cfg.dead[i]
    || (c.domMode && Magnitude(val) <= c.axisMag[c.domAxis])
    || (if a < 3 then c.noTrans else c.noRot)
  }

  /** n is v scaled by both factors, without its fraction, and with the sign turned if the axis is inverted. */
  predicate Scaled(n: int, v: int, s: real, f: real, inverted: bool) {
    var x := v as real * s * f;
    var m := if inverted then -n else n;
    if x >= 0.0 then m >= 0 && m as real <= x < (m + 1) as real
    else m <= 0 && (m - 1) as real < x <= m as real
  }

  // the sensitivity of an output axis
  function Factor(cfg: Cfg<real>, a: int): real
    requires cfg.Shaped() && 0 <= a < 6
  {
    if a < 3 then cfg.sensTrans[a] else cfg.sensRot[a - 3]
  }

  /** What axis a of an event shows of the value val of device axis i. */
  predicate Shows(c: Core, i: int, val: int, a: int, n: int)
    requires c.Valid() && 0 <= i < MAX_AXES && 0 <= a < 6
  {
    if Ignored(c, i, val, a) then n == 0
    else Scaled(n, val, c.cfg.sensitivity, Factor(c.cfg, a), c.cfg.invert[a])
  }

  lemma CookShows(c: Core, i: int, val: int, a: int)
    requires c.Valid() && 0 <= i < MAX_AXES && 0 <= a < 6
    ensures Shows(c, i, val, a, Cook(c, i, val, a))
  {
    hide Scale, Scaled;
    if Ignored(c, i, val, a) {
      var v := if Abs(val) < c.cfg.dead[i] || Suppressed(c, val) then 0 else val;
      ZeroProduct(v, c.cfg.sensitivity, AxisSens(c, a));
    } else {
      ScaleRounds(val, c.cfg.sensitivity, Factor(c.cfg, a));
    }
  }

  lemma ScaleRounds(v: int, s: real, f: real)
    ensures Scaled(Scale(v, s, f), v, s, f, false)
    ensures Scaled(-Scale(v, s, f), v, s, f, true)
  {
    hide Trunc;
    TruncIs(v as real * s * f);
  }

  lemma ZeroProduct(v: int, s: real, f: real)
    requires v == 0 || f == 0.0
    ensures Scale(v, s, f) == 0
  {
    assert v as real * s * f == 0.0;
  }

  lemma TruncIs(x: real)
    ensures var m := Trunc(x);
            if x >= 0.0 then m >= 0 && m as real <= x < (m + 1) as real
            else m <= 0 && (m - 1) as real < x <= m as real
  {
  }

  lemma TargetIs(cfg: Cfg<real>, i: int)
    requires cfg.Shaped() && 0 <= i < MAX_AXES
    ensures MapAxis(cfg, i) == if Mapped(cfg, i) then Target(cfg, i) else -1
  {
  }

  /** Nothing is shown exactly if the input is ignored or stays below one unit. */
  lemma ZeroExactly(c: Core, i: int, val: int, a: int, n: int)
    requires c.Valid() && 0 <= i < MAX_AXES && 0 <= a < 6 && Shows(c, i, val, a, n)
    ensures n == 0 <==>
              Ignored(c, i, val, a) || -1.0 < val as real * c.cfg.sensitivity * Factor(c.cfg, a) < 1.0
  {
    hide Ignored, Factor;
  }

  /**
   A mapped motion input goes to its output axis, as the value the configuration makes of it,
   and waits for the flush; all other axes and devices keep theirs. In dominant-axis mode the
   magnitude of the axis is noted, and an axis that beats the dominant one takes its place.
   */
  lemma MotionValue(c: Core, dev: int, i: int, val: int, now: Tv)
    requires c.Valid() && 0 <= i < MAX_AXES && Mapped(c.cfg, i)
    ensures var r := Advance(c, Input(dev, Motion(i, val), now));
            var a := Target(c.cfg, i);
            && r.outs == [RawAxis(i, val)] && dev in r.core.evs && Pending(r.core, dev)
            && Shows(c, i, val, a, Data(r.core, dev)[a])
            && (forall b :: 0 <= b < 6 && b != a ==> Data(r.core, dev)[b] == Data(c, dev)[b])
            && (forall d :: d != dev ==> Data(r.core, d) == Data(c, d) && Pending(r.core, d) == Pending(c, d))
            && r.core == c.(evs := r.core.evs, domAxis := r.core.domAxis, axisMag := r.core.axisMag)
            && r.core.axisMag == (if c.domMode then c.axisMag[a := Magnitude(val)] else c.axisMag)
            && r.core.domAxis == (if c.domMode && Magnitude(val) > c.axisMag[c.domAxis] then a else c.domAxis)
  {
    hide Cook, Shows, Target, MapAxis, Mapped;
    TargetIs(c.cfg, i);
    CookShows(c, i, val, Target(c.cfg, i));
    CookSame(c, WithDev(c, dev, now), i, val, Target(c.cfg, i));
  }

  /** A motion input that is not mapped only makes its device known. */
  lemma UnmappedMotion(c: Core, dev: int, i: int, val: int, now: Tv)
    requires c.Valid() && 0 <= i < MAX_AXES && !Mapped(c.cfg, i)
    ensures Advance(c, Input(dev, Motion(i, val), now)) == Result(WithDev(c, dev, now), [RawAxis(i, val)])
  {
    hide Cook;
    TargetIs(c.cfg, i);
  }

  // ---- a run -------------------------------------------------------------------------------

  /** The step moves output axis a of device d. */
  predicate Moves(cfg: Cfg<real>, s: Step, d: int, a: int)
    requires cfg.Shaped() && s.Ok()
  {
    s.Input? && s.dev == d && s.inp.Motion? && Mapped(cfg, s.inp.idx) && Target(cfg, s.inp.idx) == a
  }

  /** Step j is the last of the first n that moves axis a of device d, and d was not removed since. */
  ghost predicate LastMove(cfg: Cfg<real>, steps: seq<Step>, n: nat, j: int, d: int, a: int)
    requires cfg.Shaped() && Steps(steps) && n <= |steps|
  {
    && 0 <= j < n && Moves(cfg, steps[j], d, a)
    && forall m :: j < m < n ==> !Moves(cfg, steps[m], d, a) && steps[m] != Remove(d)
  }

  // the value axis a has after n steps: what the last move shows, or 0 without one
  ghost predicate Remains(c: Core, steps: seq<Step>, n: nat, d: int, a: int, x: int)
    requires c.Valid() && Steps(steps) && n <= |steps| && 0 <= a < 6
  {
    if Moved(c.cfg, steps, n, d, a) then
      exists j :: LastMove(c.cfg, steps, n, j, d, a) && ShowsMove(At(c, steps[..j]), steps[j], a, x)
    else x == 0
  }

  ghost predicate Moved(cfg: Cfg<real>, steps: seq<Step>, n: nat, d: int, a: int)
    requires cfg.Shaped() && Steps(steps) && n <= |steps|
  {
    exists j :: LastMove(cfg, steps, n, j, d, a)
  }

  predicate ShowsMove(c: Core, s: Step, a: int, x: int)
    requires c.Valid() && s.Ok() && 0 <= a < 6
  {
    s.Input? && s.inp.Motion? && Shows(c, s.inp.idx, s.inp.val, a, x)
  }

  lemma {:induction false} LastRemains(c: Core, steps: seq<Step>, n: nat, d: int, a: int)
    requires c.Valid() && Steps(steps) && n <= |steps| && 0 <= a < 6
    ensures Remains(c, steps, n, d, a, LastValue(c, steps, n, d, a))
  {
    hide At, Cook, Shows, Target, MapAxis, Mapped;
    if n == 0 {
    } else {
      var s := steps[n - 1];
      assert s in steps;
      if s.Input? && s.inp.Motion? { TargetIs(c.cfg, s.inp.idx); }
      if s == Remove(d) {
      } else if Moves(c.cfg, s, d, a) {
        CookShows(At(c, steps[..n - 1]), s.inp.idx, s.inp.val, a);
        assert LastMove(c.cfg, steps, n, n - 1, d, a);
      } else {
        LastRemains(c, steps, n - 1, d, a);
        StillRemains(c, steps, n, d, a, LastValue(c, steps, n - 1, d, a));
      }
    }
  }

  // a step that does not move the axis leaves its last move
  lemma StillLast(c: Core, steps: seq<Step>, n: nat, d: int, a: int)
    requires c.Valid() && Steps(steps) && 0 < n <= |steps| && 0 <= a < 6
    requires !Moves(c.cfg, steps[n - 1], d, a) && steps[n - 1] != Remove(d)
    ensures forall j :: LastMove(c.cfg, steps, n, j, d, a) <==> LastMove(c.cfg, steps, n - 1, j, d, a)
  {
    hide Moves;
  }

  lemma StillRemains(c: Core, steps: seq<Step>, n: nat, d: int, a: int, x: int)
    requires c.Valid() && Steps(steps) && 0 < n <= |steps| && 0 <= a < 6
    requires !Moves(c.cfg, steps[n - 1], d, a) && steps[n - 1] != Remove(d)
    requires Remains(c, steps, n - 1, d, a, x)
    ensures Remains(c, steps, n, d, a, x)
  {
    hide Moves, ShowsMove, At;
    StillLast(c, steps, n, d, a);
    var m := n - 1;
    if Moved(c.cfg, steps, m, d, a) {
      var j :| LastMove(c.cfg, steps, m, j, d, a) && ShowsMove(At(c, steps[..j]), steps[j], a, x);
      assert LastMove(c.cfg, steps, n, j, d, a);
    }
  }

  /**
   What a client sees: every motion event of a device, dispatched or repeated, shows on each
   axis the value the configuration makes of the last input moved to it, and 0 where none was.
   */
  lemma DispatchedValues(c: Core, steps: seq<Step>, k: nat, d: int, a: int)
    requires c.Valid() && Steps(steps) && k < |steps| && d !in c.evs && 0 <= a < 6
    requires Motions(OutsAt(c, steps, k), d) != []
    ensures var o := Motions(OutsAt(c, steps, k), d)[0];
            o.MotionOut? && |o.data| == 6 && Remains(c, steps, k, d, a, o.data[a])
  {
    hide OutsAt, Motions, LastValue, Remains, Arrived;
    MotionRefines(c, steps, k, d);
    LastRemains(c, steps, k, d, a);
  }
}
