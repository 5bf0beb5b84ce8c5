/**
 Deadlines and the select() timeout: stored deadlines are press times plus the hold
 timeout, the wait computed from them ends at the earliest one, and the timer check
 after the wait fires exactly the expired ones.
 */
module EventDeadlines {
  import opened Config
  import opened Inputs
  import opened Events
  import opened EventSlots
  import opened EventRuns

  // a node of the device list; an invalid device has no open file descriptor
  datatype Device = Device(id: int, valid: bool)

  function Ids(devs: seq<Device>): (s: seq<int>)
    ensures |s| == |devs| && forall i :: 0 <= i < |s| ==> s[i] == devs[i].id
  {
    seq(|devs|, i requires 0 <= i < |devs| => devs[i].id)
  }

  lemma IdIn(devs: seq<Device>, x: Device)
    requires x in devs
    ensures x.id in Ids(devs)
  {
    var i :| 0 <= i < |devs| && devs[i] == x;
    assert Ids(devs)[i] == x.id;
  }

  // ---- stored deadlines --------------------------------------------------------------

  // t is the deadline of the press at step p, untouched and unexpired at every check up to step n
  ghost predicate DeadlineOf(steps: seq<Step>, n: nat, d: int, b: int, ms: int, t: Tv, p: int)
    requires n <= |steps|
  {
    && 0 <= p < n && Press(steps[p], d, b)
    && Clock(t) && Micros(t) == Micros(steps[p].now) + 1000 * ms
    && forall m :: p < m < n ==> !Touches(steps[m], d, b) && !Checks(steps[m], d, t)
  }

  /**
   Every deadline stored at any point of a run belongs to the latest press of that
   button, is normalised, lies exactly the hold timeout after it and has not expired
   at any check since.
   */
  lemma {:induction false} StoredDeadline(c: Core, steps: seq<Step>, n: nat, d: int, b: int)
    requires c.Valid() && Steps(steps) && Clocked(steps) && n <= |steps| && 0 <= b < MAX_BUTTONS && d !in c.evs
    ensures var t := SlotAt(c, steps, n, d, b);
            t != NEVER ==> exists p :: DeadlineOf(steps, n, d, b, c.cfg.holdTimeout, t, p)
  {
    hide SlotAt, Deadline, AtMost, Clock, Micros, Clocked, DeadlineOf;
    if n == 0 {
      SlotAtStart(c, steps, d, b);
    } else {
      StoredDeadline(c, steps, n - 1, d, b);
      RunStep(c, steps, n - 1, d, b);
      var s, t := steps[n - 1], SlotAt(c, steps, n, d, b);
      if t != NEVER {
        if Press(s, d, b) && c.cfg.mapHold[b] != -1 {
          DeadlineSet(steps, n, d, b, c.cfg.holdTimeout);
        } else {
          if c.cfg.mapHold[b] == -1 { HoldMapped(c, steps, n, d, b); }
          var m := n - 1;
          var p :| DeadlineOf(steps, m, d, b, c.cfg.holdTimeout, t, p);
          DeadlineStays(steps, n, d, b, c.cfg.holdTimeout, t, p);
        }
      }
    }
  }

  lemma DeadlineSet(steps: seq<Step>, n: nat, d: int, b: int, ms: nat)
    requires 0 < n <= |steps| && Clocked(steps) && Press(steps[n - 1], d, b)
    ensures DeadlineOf(steps, n, d, b, ms, Deadline(steps[n - 1].now, ms), n - 1)
  {
    hide Deadline;
    DeadlineIs(steps[n - 1].now, ms);
  }

  lemma DeadlineStays(steps: seq<Step>, n: nat, d: int, b: int, ms: nat, t: Tv, p: int)
    requires 0 < n <= |steps| && Clocked(steps) && DeadlineOf(steps, n - 1, d, b, ms, t, p)
    requires !Touches(steps[n - 1], d, b)
    requires !(steps[n - 1].Timer? && d in steps[n - 1].devs && Due(t, steps[n - 1].now))
    ensures DeadlineOf(steps, n, d, b, ms, t, p)
  {
    hide Touches, AtMost;
    if steps[n - 1].Timer? { AtMostIs(t, steps[n - 1].now); }
  }

  // only buttons with a hold mapping get deadlines
  lemma {:induction false} HoldMapped(c: Core, steps: seq<Step>, n: nat, d: int, b: int)
    requires c.Valid() && Steps(steps) && n <= |steps| && 0 <= b < MAX_BUTTONS && d !in c.evs
    requires SlotAt(c, steps, n, d, b) != NEVER
    ensures c.cfg.mapHold[b] != -1
  {
    hide SlotAt, Deadline, Due;
    if n == 0 {
      SlotAtStart(c, steps, d, b);
    } else {
      RunStep(c, steps, n - 1, d, b);
      if c.cfg.mapHold[b] == -1 { HoldMapped(c, steps, n - 1, d, b); }
    }
  }

  // ---- the wait -------------------------------------------------------------------------

  // deadlines of a running daemon
  ghost predicate SlotsClock(c: Core)
    requires c.Valid()
  {
    forall d, b :: 0 <= b < MAX_BUTTONS ==> Slot(c, d, b) == NEVER || Clock(Slot(c, d, b))
  }

  lemma RunSlotsClock(c: Core, steps: seq<Step>)
    requires c.Valid() && Steps(steps) && Clocked(steps) && c.evs == map[]
    ensures SlotsClock(At(c, steps))
  {
    hide Slot, At;
    assert steps[..|steps|] == steps;
    forall d, b | 0 <= b < MAX_BUTTONS
      ensures Slot(At(c, steps), d, b) == NEVER || Clock(Slot(At(c, steps), d, b))
    {
      StoredDeadline(c, steps, |steps|, d, b);
    }
  }

  /** The time left until min, not below zero. */
  function Remaining(min: Tv, now: Tv): Tv {
    var sec, usec := min.sec - now.sec, min.usec - now.usec;
    var diff := if usec < 0 then Tv(sec - 1, usec + 1_000_000) else Tv(sec, usec);
    if diff.sec < 0 then Tv(0, 0) else diff
  }

  lemma RemainingIs(min: Tv, now: Tv)
    requires Normalised(min) && Normalised(now)
    ensures Normalised(Remaining(min, now))
    ensures Micros(Remaining(min, now)) == if Micros(min) <= Micros(now) then 0 else Micros(min) - Micros(now)
  {
    var sec, usec := min.sec - now.sec, min.usec - now.usec;
    if usec < 0 { Borrow(sec - 1, usec + 1_000_000); } else { Borrow(sec, usec); }
  }

  lemma Borrow(sec: int, usec: int)
    requires 0 <= usec < 1_000_000
    ensures sec < 0 <==> Micros(Tv(sec, usec)) < 0
    ensures Micros(Tv(sec, usec)) == 0 ==> sec == 0 && usec == 0
  {
  }

  // a deadline the wait has to respect
  predicate Awaited(c: Core, devs: seq<Device>, d: int, b: int)
    requires c.Valid()
  {
    0 <= b < MAX_BUTTONS && Device(d, true) in devs && Slot(c, d, b) != NEVER
  }

  ghost predicate Earliest(c: Core, devs: seq<Device>, t: Tv)
    requires c.Valid()
  {
    && (exists d, b :: Awaited(c, devs, d, b) && Slot(c, d, b) == t)
    && (forall d, b :: Awaited(c, devs, d, b) ==> AtMost(t, Slot(c, d, b)))
  }

  // the result of next_button_timeout for some wait
  ghost predicate IsWait(c: Core, devs: seq<Device>, now: Tv, wait: Tv)
    requires c.Valid()
  {
    exists t :: Earliest(c, devs, t) && wait == Remaining(t, now)
  }

  /**
   Waiting: the wait is normalised; before it is over nothing awaited is due; once it is
   over the timer check fires at least one slot.
   */
  lemma WaitThenFire(c: Core, devs: seq<Device>, now: Tv, wait: Tv, later: Tv)
    requires c.Valid() && SlotsClock(c) && Clock(now) && Clock(later)
    requires IsWait(c, devs, now, wait)
    ensures Normalised(wait) && Micros(wait) >= 0
    ensures Micros(wait) > 0 && Micros(later) < Micros(now) + Micros(wait) ==>
              forall d, b :: Awaited(c, devs, d, b) ==> !Due(Slot(c, d, b), later)
    ensures Micros(later) >= Micros(now) + Micros(wait) ==>
              exists d, b :: Awaited(c, devs, d, b) && Says(TimerPass(c, Ids(devs), later).outs, d, b, Hold, c)
  {
    hide Slot, AtMost, Remaining, Says, TimerPass, Micros;
    var t :| Earliest(c, devs, t) && wait == Remaining(t, now);
    var d, b :| Awaited(c, devs, d, b) && Slot(c, d, b) == t;
    AwaitedIs(c, devs, d, b);
    RemainingIs(t, now);
    if Micros(later) >= Micros(now) + Micros(wait) {
      AtMostIs(t, later);
      IdIn(devs, Device(d, true));
      TimerPassSays(c, Ids(devs), later, d, b);
    }
    if Micros(wait) > 0 && Micros(later) < Micros(now) + Micros(wait) {
      forall e, a | Awaited(c, devs, e, a) ensures !Due(Slot(c, e, a), later) {
        AwaitedIs(c, devs, e, a);
        AtMostIs(t, Slot(c, e, a));
        AtMostIs(Slot(c, e, a), later);
      }
    }
  }

  lemma AwaitedIs(c: Core, devs: seq<Device>, d: int, b: int)
    requires c.Valid() && SlotsClock(c) && Awaited(c, devs, d, b)
    ensures 0 <= b < MAX_BUTTONS && Device(d, true) in devs && Clock(Slot(c, d, b)) && Slot(c, d, b) != NEVER
  {
  }

  /**
   After a timer check every deadline of a listed device lies in the future, and exactly the
   expired ones have fired.
   */
  lemma CheckIsExact(c: Core, devs: seq<Device>, now: Tv, d: int, b: int)
    requires c.Valid() && SlotsClock(c) && Clock(now) && 0 <= b < MAX_BUTTONS && d in Ids(devs)
    ensures var t, after := Slot(c, d, b), Slot(TimerPass(c, Ids(devs), now).core, d, b);
            var outs := TimerPass(c, Ids(devs), now).outs;
            && (if t != NEVER && Micros(t) <= Micros(now) then after == NEVER && Says(outs, d, b, Hold, c)
                else after == t && Silent(outs, d, b))
            && (after == NEVER || Before(now, after))
  {
    hide Slot, AtMost, Before, Decided, TimerPass;
    TimerPassSays(c, Ids(devs), now, d, b);
    var t := Slot(c, d, b);
    if t != NEVER {
      AtMostIs(t, now);
      AtMostIs(now, t);
    }
  }
}
