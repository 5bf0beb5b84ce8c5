/**
 Whole runs of the event pipeline, seen from one button: every press of a button
 with a hold mapping is decided exactly once, and by how long the button was down.
 */
module EventRuns {
  import opened Config
  import opened Inputs
  import opened Events
  import opened EventSlots

  // ---- time ----------------------------------------------------------------------

  // what gettimeofday returns
  predicate Clock(t: Tv) { Normalised(t) && t.sec > 0 }

  predicate Timed(s: Step) { !s.Remove? }

  ghost predicate Clocked(steps: seq<Step>) {
    && (forall i :: 0 <= i < |steps| && Timed(steps[i]) ==> Clock(steps[i].now))
    && (forall i, j :: 0 <= i < j < |steps| && Timed(steps[i]) && Timed(steps[j]) ==>
          Micros(steps[i].now) <= Micros(steps[j].now))
  }

  lemma AtMostIs(a: Tv, b: Tv)
    requires Normalised(a) && Normalised(b)
    ensures AtMost(a, b) <==> Micros(a) <= Micros(b)
    ensures Before(a, b) <==> Micros(a) < Micros(b)
  {
  }

  /** A deadline is the time of the press plus the timeout, normalised. */
  lemma DeadlineIs(now: Tv, ms: nat)
    requires Clock(now)
    ensures Clock(Deadline(now, ms))
    ensures Micros(Deadline(now, ms)) == Micros(now) + 1000 * ms
  {
  }

  // ---- stepping a run -----------------------------------------------------------------

  lemma AtNext(c: Core, steps: seq<Step>, k: nat)
    requires c.Valid() && Steps(steps) && k < |steps|
    ensures Steps(steps[..k]) && Steps(steps[..k + 1])
    ensures At(c, steps[..k + 1]) == Advance(At(c, steps[..k]), steps[k]).core
  {
    hide Advance;
    assert steps[..k + 1][..k] == steps[..k];
  }

  function SlotAt(c: Core, steps: seq<Step>, k: nat, d: int, b: int): Tv
    requires c.Valid() && Steps(steps) && k <= |steps| && 0 <= b < MAX_BUTTONS
  {
    Slot(At(c, steps[..k]), d, b)
  }

  // Direct, Tap, Hold or nothing: what step k of the run emits for the button
  ghost predicate SaysAt(c: Core, steps: seq<Step>, k: nat, d: int, b: int, v: Verdict)
    requires c.Valid() && Steps(steps) && k < |steps| && 0 <= b < MAX_BUTTONS
  {
    Says(OutsAt(c, steps, k), d, b, v, c)
  }

  lemma RunStep(c: Core, steps: seq<Step>, k: nat, d: int, b: int)
    requires c.Valid() && Steps(steps) && k < |steps| && 0 <= b < MAX_BUTTONS
    ensures SlotAt(c, steps, k + 1, d, b) == SlotAfter(c.cfg, SlotAt(c, steps, k, d, b), steps[k], d, b)
    ensures SaysAt(c, steps, k, d, b, SlotSays(c.cfg, SlotAt(c, steps, k, d, b), steps[k], d, b))
  {
    hide Advance, Deadline, Due, AtMost, Says;
    AtNext(c, steps, k);
    var now := At(c, steps[..k]);
    RunSame(c, steps[..k]);
    SlotStep(now, steps[k], d, b);
    SaysSame(OutsAt(c, steps, k), d, b, SlotSays(c.cfg, Slot(now, d, b), steps[k], d, b), c, now);
  }

  // while no step changes the slot, every step says what it says of that slot
  lemma {:induction false} SlotKept(c: Core, steps: seq<Step>, i: nat, j: nat, d: int, b: int)
    requires c.Valid() && Steps(steps) && i <= j <= |steps| && 0 <= b < MAX_BUTTONS
    requires var t := SlotAt(c, steps, i, d, b);
             forall m :: i <= m < j ==> SlotAfter(c.cfg, t, steps[m], d, b) == t
    ensures var t := SlotAt(c, steps, i, d, b);
            && SlotAt(c, steps, j, d, b) == t
            && forall m :: i <= m < j ==> SaysAt(c, steps, m, d, b, SlotSays(c.cfg, t, steps[m], d, b))
  {
    hide SlotAt, SlotAfter, SaysAt, SlotSays;
    if i < j {
      SlotKept(c, steps, i, j - 1, d, b);
      RunStep(c, steps, j - 1, d, b);
    }
  }

  // ---- taps and holds -------------------------------------------------------------------

  predicate Press(s: Step, d: int, b: int) { Pushes(s, d, b) && s.inp.val != 0 }

  predicate Release(s: Step, d: int, b: int) { Pushes(s, d, b) && s.inp.val == 0 }

  predicate Touches(s: Step, d: int, b: int) { Pushes(s, d, b) || s == Remove(d) }

  // a timer check that covers the device at or after t
  predicate Checks(s: Step, d: int, t: Tv) { s.Timer? && d in s.devs && Micros(t) <= Micros(s.now) }

  /** The first check at or after t among steps i..q, or q. */
  function FirstCheck(steps: seq<Step>, d: int, t: Tv, i: nat, q: nat): (k: nat)
    requires i <= q <= |steps|
    ensures i <= k <= q && (k < q ==> Checks(steps[k], d, t))
    ensures forall m :: i <= m < k ==> !Checks(steps[m], d, t)
    decreases q - i
  {
    if i == q || Checks(steps[i], d, t) then i else FirstCheck(steps, d, t, i + 1, q)
  }

  ghost predicate OnlyAt(c: Core, steps: seq<Step>, p: nat, q: nat, k: nat, d: int, b: int, v: Verdict)
    requires c.Valid() && Steps(steps) && p <= k <= q < |steps| && 0 <= b < MAX_BUTTONS
  {
    && SaysAt(c, steps, k, d, b, v)
    && forall m :: p <= m <= q && m != k ==> SaysAt(c, steps, m, d, b, Nothing)
  }

  /**
   A press at step p and its release at step q cause exactly one press and release
   output: at the first timer check past the deadline or, without one, at the release;
   with the hold mapping exactly if the button was down for at least the hold timeout.
   */
  lemma TapOrHold(c: Core, steps: seq<Step>, d: int, b: int, p: nat, q: nat)
    requires c.Valid() && Steps(steps) && Clocked(steps)
    requires 0 <= b < MAX_BUTTONS && c.cfg.mapHold[b] != -1
    requires p < q < |steps| && Press(steps[p], d, b) && Release(steps[q], d, b)
    requires forall m :: p < m < q ==> !Touches(steps[m], d, b)
    ensures var k := FirstCheck(steps, d, Deadline(steps[p].now, c.cfg.holdTimeout), p + 1, q);
            var held := Micros(steps[q].now) - Micros(steps[p].now) >= 1000 * c.cfg.holdTimeout;
            OnlyAt(c, steps, p, q, k, d, b, if held then Hold else Tap)
    ensures SlotAt(c, steps, q + 1, d, b) == NEVER
  {
    hide SlotAt, SaysAt, Deadline, AtMost, Says;
    var t := Deadline(steps[p].now, c.cfg.holdTimeout);
    DeadlineIs(steps[p].now, c.cfg.holdTimeout);
    RunStep(c, steps, p, d, b);
    assert SlotAt(c, steps, p + 1, d, b) == t != NEVER;
    var k := FirstCheck(steps, d, t, p + 1, q);
    Waits(c, steps, d, b, p + 1, k);
    RunStep(c, steps, k, d, b);
    AtMostIs(t, steps[k].now);
    if k < q {
      assert Due(t, steps[k].now);
      Over(c, steps, d, b, k + 1, q);
      RunStep(c, steps, q, d, b);
    }
  }

  // until the first check past its deadline a set slot waits and nothing is emitted
  lemma Waits(c: Core, steps: seq<Step>, d: int, b: int, i: nat, k: nat)
    requires c.Valid() && Steps(steps) && Clocked(steps) && 0 <= b < MAX_BUTTONS
    requires i <= k <= |steps| && Clock(SlotAt(c, steps, i, d, b))
    requires forall m :: i <= m < k ==> !Touches(steps[m], d, b) && !Checks(steps[m], d, SlotAt(c, steps, i, d, b))
    ensures SlotAt(c, steps, k, d, b) == SlotAt(c, steps, i, d, b)
    ensures forall m :: i <= m < k ==> SaysAt(c, steps, m, d, b, Nothing)
  {
    hide SlotAt, SaysAt, Deadline, AtMost;
    var t := SlotAt(c, steps, i, d, b);
    forall m | i <= m < k
      ensures SlotAfter(c.cfg, t, steps[m], d, b) == t && SlotSays(c.cfg, t, steps[m], d, b) == Nothing
    {
      assert !Touches(steps[m], d, b) && !Checks(steps[m], d, t);
      if steps[m].Timer? { AtMostIs(t, steps[m].now); }
    }
    SlotKept(c, steps, i, k, d, b);
    forall m | i <= m < k ensures SaysAt(c, steps, m, d, b, Nothing) {
      assert SlotSays(c.cfg, t, steps[m], d, b) == Nothing;
    }
  }

  /** Between presses a button with a hold mapping emits nothing: a late or repeated release is ignored. */
  lemma Over(c: Core, steps: seq<Step>, d: int, b: int, i: nat, j: nat)
    requires c.Valid() && Steps(steps) && 0 <= b < MAX_BUTTONS && c.cfg.mapHold[b] != -1
    requires i <= j <= |steps| && SlotAt(c, steps, i, d, b) == NEVER
    requires forall m :: i <= m < j ==> !Press(steps[m], d, b)
    ensures SlotAt(c, steps, j, d, b) == NEVER
    ensures forall m :: i <= m < j ==> SaysAt(c, steps, m, d, b, Nothing)
  {
    hide SlotAt, SaysAt, Deadline, AtMost;
    forall m | i <= m < j
      ensures SlotAfter(c.cfg, NEVER, steps[m], d, b) == NEVER && SlotSays(c.cfg, NEVER, steps[m], d, b) == Nothing
    {
      assert !Press(steps[m], d, b);
    }
    SlotKept(c, steps, i, j, d, b);
    forall m | i <= m < j ensures SaysAt(c, steps, m, d, b, Nothing) {
      assert SlotSays(c.cfg, NEVER, steps[m], d, b) == Nothing;
    }
  }

  // ---- counting ------------------------------------------------------------------------------

  function PressOuts(outs: seq<Out>, d: int, b: int): nat {
    if outs == [] then 0
    else PressOuts(outs[..|outs| - 1], d, b) + if About(outs[|outs| - 1], d, b) && outs[|outs| - 1].press then 1 else 0
  }

  // press outputs of the whole run
  function Emitted(c: Core, steps: seq<Step>, n: nat, d: int, b: int): nat
    requires c.Valid() && Steps(steps) && n <= |steps|
  {
    if n == 0 then 0 else Emitted(c, steps, n - 1, d, b) + PressOuts(OutsAt(c, steps, n - 1), d, b)
  }

  function Presses(steps: seq<Step>, n: nat, d: int, b: int): nat
    requires n <= |steps|
  {
    if n == 0 then 0 else Presses(steps, n - 1, d, b) + if Press(steps[n - 1], d, b) then 1 else 0
  }

  // presses forgotten: pressed again while still undecided, or the device removed
  function Lost(c: Core, steps: seq<Step>, n: nat, d: int, b: int): nat
    requires c.Valid() && Steps(steps) && n <= |steps| && 0 <= b < MAX_BUTTONS
  {
    if n == 0 then 0
    else
      Lost(c, steps, n - 1, d, b) +
      if (Press(steps[n - 1], d, b) || steps[n - 1] == Remove(d)) && SlotAt(c, steps, n - 1, d, b) != NEVER
      then 1
      else 0
  }

  lemma SilentCount(outs: seq<Out>, d: int, b: int)
    requires Silent(outs, d, b)
    ensures PressOuts(outs, d, b) == 0
  {
    if outs != [] {
      var init := outs[..|outs| - 1];
      assert forall o :: o in init ==> o in outs;
      SilentCount(init, d, b);
    }
  }

  lemma SilentTail(x: seq<Out>, y: seq<Out>, d: int, b: int)
    requires Silent(y, d, b)
    ensures PressOuts(x + y, d, b) == PressOuts(x, d, b)
  {
    if y == [] {
      assert x + y == x;
    } else {
      var init := y[..|y| - 1];
      assert forall o :: o in init ==> o in y;
      SilentTail(x, init, d, b);
      assert (x + y)[..|x + y| - 1] == x + init;
    }
  }

  lemma DecidedCount(outs: seq<Out>, d: int, b: int, hold: bool, what: Effect)
    requires Decided(outs, d, b, hold, what)
    ensures PressOuts(outs, d, b) == 1
  {
    var k :| PairAt(outs, k, d, b, hold, what);
    var head := outs[..k];
    SilentCount(head, d, b);
    var mid := head + [outs[k]];
    assert mid[..|mid| - 1] == head;
    assert PressOuts(mid, d, b) == 1;
    var most := mid + [outs[k + 1]];
    assert most[..|most| - 1] == mid;
    assert outs == most + outs[k + 2..];
    SilentTail(most, outs[k + 2..], d, b);
  }

  /**
   Conservation: in any run, every press of a button with a hold mapping has been
   decided once, or was lost, or is the one still undecided.
   */
  lemma {:induction false} EveryPressAccounted(c: Core, steps: seq<Step>, n: nat, d: int, b: int)
    requires c.Valid() && Steps(steps) && Clocked(steps) && n <= |steps|
    requires 0 <= b < MAX_BUTTONS && c.cfg.mapHold[b] != -1 && d !in c.evs
    ensures Presses(steps, n, d, b) ==
            Emitted(c, steps, n, d, b) + Lost(c, steps, n, d, b) + if SlotAt(c, steps, n, d, b) != NEVER then 1 else 0
  {
    hide SlotAt, OutsAt, Deadline, AtMost, Decided, Silent, PressOuts, EffectOf;
    if n == 0 {
      SlotAtStart(c, steps, d, b);
    } else {
      EveryPressAccounted(c, steps, n - 1, d, b);
      RunStep(c, steps, n - 1, d, b);
      var s, t := steps[n - 1], SlotAt(c, steps, n - 1, d, b);
      var v, outs := SlotSays(c.cfg, t, s, d, b), OutsAt(c, steps, n - 1);
      assert v != Direct(true) && v != Direct(false);
      if v == Nothing {
        SilentCount(outs, d, b);
      } else {
        DecidedCount(outs, d, b, v == Hold, EffectOf(c, b, v == Hold));
      }
      if Press(s, d, b) { DeadlineIs(s.now, c.cfg.holdTimeout); }
    }
  }

  lemma SlotAtStart(c: Core, steps: seq<Step>, d: int, b: int)
    requires c.Valid() && Steps(steps) && 0 <= b < MAX_BUTTONS && d !in c.evs
    ensures SlotAt(c, steps, 0, d, b) == NEVER
  {
  }
}
